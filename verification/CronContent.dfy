/** What an enabled cron will do was confirmed, and the scheduler's heap holds exactly the enabled crons. */
module CronContent {
  import opened Wrappers
  import opened JsonZeros
  import opened CronSecurity
  import opened Confirmations
  import opened CronControlModel
  import opened CronEnable

  /** The content of cron `id` that was last confirmed, or that it was enabled with when the daemon started. */
  function Approved(env: Env, s0: Ctl, steps: seq<Step>, id: string): Option<Snapshot> {
    if steps == [] then
      if EnabledIn(s0, id) then Some(s0.rows[id].snap) else None
    else
      var s, last := Run(env, s0, steps[..|steps| - 1]), steps[|steps| - 1];
      if Confirms(env, s, last, id) then Some(s.rows[id].snap)
      else Approved(env, s0, steps[..|steps| - 1], id)
  }

  /** Every row, and the row an upsert has read, is as the database keeps it. */
  predicate AllStored(s: Ctl) {
    && RowsStored(s.rows)
    && (s.phase.Deciding? && s.phase.seen.Some? ==> Stored(s.phase.seen.value.snap) == s.phase.seen.value.snap)
  }

  lemma WriteKeepsStored(s: Ctl)
    requires AllStored(s)
    ensures AllStored(DoUpsertWrite(s))
  {
    hide Decide;
  }

  lemma StepKeepsStored(env: Env, s: Ctl, step: Step)
    requires AllStored(s)
    ensures AllStored(Next(env, s, step))
  {
    WriteKeepsStored(s);
    hide DoUpsertWrite, StoredBudget, Stored, EntryOf, WithoutCron, Presented, Issued, Refusal, Parses;
  }

  lemma {:induction false} RunKeepsStored(env: Env, s0: Ctl, steps: seq<Step>)
    requires Start(env, s0) && RowsStored(s0.rows)
    ensures AllStored(Run(env, s0, steps))
  {
    if |steps| == 0 {
    } else {
      RunKeepsStored(env, s0, steps[..|steps| - 1]);
      StepKeepsStored(env, Run(env, s0, steps[..|steps| - 1]), steps[|steps| - 1]);
      hide AllStored, Next;
    }
  }

  /** Bit for bit the same, but for the signs of zeros in the spawn arguments. */
  predicate SameStored(a: Snapshot, b: Snapshot) {
    a.(spawnArgs := b.spawnArgs) == b && ArgsSame(a.spawnArgs, b.spawnArgs)
  }

  /**
   Against a stored row, an edit passes for no change exactly when storing it leaves the row as it
   was but for signs of zeros in its spawn arguments; a NaN budget always counts as a change.
   */
  lemma UnchangedIff(row: Snapshot, next: Snapshot)
    requires Stored(row) == row
    ensures ChangedFields(row, next) == [] <==> SameStored(row, Stored(next)) && !NaNBudget(next)
  {
    ChangedEmptyIff(row, next);
    BudgetSameIff(row, next);
    hide ChangedFields, WithoutZeroSigns, BudgetSame;
    assert next.budget.Some? && next.budget.value.Zero() ==> !next.budget.value.NaN();
  }

  predicate Covers(approved: Option<Snapshot>, snap: Snapshot) {
    approved.Some? && SameStored(approved.value, snap)
  }

  /** An enabled row, and an enabled row an upsert has read, hold approved content. */
  predicate ContentOk(s: Ctl, id: string, approved: Option<Snapshot>) {
    && (EnabledIn(s, id) ==> Covers(approved, s.rows[id].snap))
    && (s.phase.Deciding? && s.phase.u.id == id && s.phase.seen.Some? && s.phase.seen.value.enabled ==>
          Covers(approved, s.phase.seen.value.snap))
  }

  lemma WriteKeepsContent(s: Ctl, id: string, approved: Option<Snapshot>)
    requires AllStored(s) && ContentOk(s, id, approved)
    ensures ContentOk(DoUpsertWrite(s), id, approved)
  {
    if s.phase.Deciding? && s.phase.seen.Some? {
      UnchangedIff(s.phase.seen.value.snap, s.phase.u.next);
    }
    hide ChangedFields, Stored, RowsStored, WithoutZeroSigns;
  }

  lemma StepKeepsContent(env: Env, s: Ctl, step: Step, id: string, approved: Option<Snapshot>)
    requires AllStored(s) && ContentOk(s, id, approved)
    ensures ContentOk(Next(env, s, step), id,
                      if Confirms(env, s, step, id) then Some(s.rows[id].snap) else approved)
  {
    WriteKeepsContent(s, id, approved);
    hide DoUpsertWrite, Presented, Issued, WithoutCron, Fingerprint, AllStored, ArgsSame;
  }

  /**
   In every reachable state an enabled cron's eight sensitive fields are those last confirmed, or
   enabled at start: bit for bit, but for the signs of zeros in the spawn arguments.
   */
  lemma {:induction false} EnabledContentIsApproved(env: Env, s0: Ctl, steps: seq<Step>, id: string)
    requires Start(env, s0) && RowsStored(s0.rows)
    ensures ContentOk(Run(env, s0, steps), id, Approved(env, s0, steps, id))
  {
    if |steps| == 0 {
    } else {
      var front := steps[..|steps| - 1];
      EnabledContentIsApproved(env, s0, front, id);
      RunKeepsStored(env, s0, front);
      StepKeepsContent(env, Run(env, s0, front), steps[|steps| - 1], id, Approved(env, s0, front, id));
      hide ContentOk, Next, Confirms, AllStored;
    }
  }

  /** What the fingerprint covers is therefore what was approved, exactly when the spawn arguments' bytes are. */
  lemma EnabledContentIff(env: Env, s0: Ctl, steps: seq<Step>, id: string)
    requires Start(env, s0) && RowsStored(s0.rows) && EnabledIn(Run(env, s0, steps), id)
    ensures Approved(env, s0, steps, id).Some?
    ensures var a, now := Approved(env, s0, steps, id).value, Run(env, s0, steps).rows[id].snap;
            Addressable(a) && Addressable(now) ==> (Stream(a) == Stream(now) <==> a.spawnArgs == now.spawnArgs)
  {
    EnabledContentIsApproved(env, s0, steps, id);
    hide Approved, Run, ArgsSame, Stream, RowsStored;
    var a, now := Approved(env, s0, steps, id).value, Run(env, s0, steps).rows[id].snap;
    if Addressable(a) && Addressable(now) {
      StreamInjective(a, now);
    }
  }

  /** `[0.0]` and `[-0.0]`. */
  const ZERO_ARGS: seq<byte> := [91, 48, 46, 48, 93]
  const SIGNED_ZERO_ARGS: seq<byte> := [91, 45, 48, 46, 48, 93]

  lemma ZeroArgsSame()
    ensures ArgsSame(ZERO_ARGS, SIGNED_ZERO_ARGS)
  {
    assert SIGNED_ZERO_ARGS[1..] == [45, 48, 46, 48, 93];
    assert SIGNED_ZERO_ARGS[1..][1..] == ZERO_ARGS[1..];
    assert !SignedZero(ZERO_ARGS) && !SignedZero(SIGNED_ZERO_ARGS) && SignedZero(SIGNED_ZERO_ARGS[1..]);
    hide SignedZero;
  }

  /** A sign put on a zero argument passes for no change: the cron stays enabled with content of another fingerprint stream. */
  lemma ZeroSignSlipsThrough(env: Env, snap: Snapshot)
    requires snap.spawnArgs == ZERO_ARGS && snap.budget.None?
    requires Parses(env, snap) && |snap.prompt| <= MAX_PROMPT_BYTES
    ensures var other := snap.(spawnArgs := SIGNED_ZERO_ARGS);
            var s0 := Ctl(map["c" := Row(snap, true, 1, 0)], map["c" := EntryOf(snap)], map[], Idle);
            var s := Run(env, s0, [UpsertBegin(Upsert("c", other, 1, 0)), UpsertWrite]);
            && Start(env, s0) && RowsStored(s0.rows)
            && EnabledIn(s, "c") && s.rows["c"].snap == other && Stream(other) != Stream(snap)
  {
    hide Stream;
    var other := snap.(spawnArgs := SIGNED_ZERO_ARGS);
    var u := Upsert("c", other, 1, 0);
    var s0 := Ctl(map["c" := Row(snap, true, 1, 0)], map["c" := EntryOf(snap)], map[], Idle);
    assert snap.spawnArgs[1] != other.spawnArgs[1];
    StreamInjective(snap, other);
    ZeroArgsSame();
    UnchangedIff(snap, other);
    hide ChangedFields, ArgsSame;
    var steps := [UpsertBegin(u), UpsertWrite];
    assert steps[..1] == [UpsertBegin(u)] && steps[..1][..0] == [];
    assert Run(env, s0, []) == s0;
    assert Run(env, s0, steps[..1]) == DoUpsertBegin(env, s0, u);
  }

  /** The content redeemed is the content the token was issued for, unless the two collide under the hash. */
  lemma ConfirmedContentIsShown(env: Env, s0: Ctl, steps: seq<Step>, i: nat, j: nat, id: string)
    requires ConfirmedBy(env, s0, steps, i, j, id)
    requires Addressable(At(env, s0, steps, i).rows[id].snap) && Addressable(At(env, s0, steps, j).rows[id].snap)
    ensures var shown, redeemed := At(env, s0, steps, i).rows[id].snap, At(env, s0, steps, j).rows[id].snap;
            || shown == redeemed
            || (Stream(shown) != Stream(redeemed) && env.hash(Stream(shown)) == env.hash(Stream(redeemed)))
  {
    hide Stream, Run;
    StreamInjective(At(env, s0, steps, i).rows[id].snap, At(env, s0, steps, j).rows[id].snap);
  }

  /** The octets of an ASCII text. */
  function Ascii(s: string): Text
    requires forall k :: 0 <= k < |s| ==> s[k] < 128 as char
  {
    seq(|s|, k requires 0 <= k < |s| => s[k] as int)
  }

  /** The catch-up mode of a stored text: `skip` and `replay` by name, and everything else coalesces. */
  lemma ModesAre(t: Text)
    ensures CatchupModeOf(t).Skip? <==> t == Ascii("skip")
    ensures CatchupModeOf(t).Replay? <==> t == Ascii("replay")
    ensures CatchupModeOf(t).Coalesce? <==> t != Ascii("skip") && t != Ascii("replay")
    ensures CatchupModeOf(Ascii("coalesce")).Coalesce?
  {
    assert Ascii("skip") == SKIP;
    assert Ascii("replay") == REPLAY;
    assert Ascii("coalesce")[0] != SKIP[0] && Ascii("coalesce")[0] != REPLAY[0];
  }

  // Storage and heap.

  /** A heap entry belongs to a stored row and schedules what the row says; an enabled row that parses has one. */
  predicate EntryOk(env: Env, s: Ctl, id: string) {
    && (id in s.heap ==> id in s.rows && Parses(env, s.rows[id].snap) && s.heap[id] == EntryOf(s.rows[id].snap))
    && (EnabledIn(s, id) && Parses(env, s.rows[id].snap) ==> id in s.heap)
  }

  /** While an upsert is in flight its row and heap entry may differ from what it will leave. */
  predicate FlightOk(env: Env, s: Ctl) {
    match s.phase
    case Idle => true
    case Deciding(u, seen) =>
      && Parses(env, u.next)
      && (seen.Some? <==> u.id in s.rows)
      && (seen.Some? ==> seen.value.snap == s.rows[u.id].snap)
      && (seen.Some? && seen.value.enabled && Parses(env, seen.value.snap) ==> u.id in s.heap)
    case Reconciling(u, _) => u.id in s.rows && s.rows[u.id].snap == Stored(u.next) && Parses(env, u.next)
  }

  /** The row an upsert has written and not yet reconciled. */
  predicate InDoubt(s: Ctl, id: string) {
    s.phase.Reconciling? && s.phase.u.id == id
  }

  /** The heap agrees with storage, apart from the one row an upsert has written and not yet reconciled. */
  ghost predicate HeapAgrees(env: Env, s: Ctl) {
    && FlightOk(env, s)
    && (forall id :: !InDoubt(s, id) ==> EntryOk(env, s, id))
    && (s.phase.Reconciling? && EnabledIn(s, s.phase.u.id) ==>
          s.phase.u.id in s.heap && s.heap[s.phase.u.id] == EntryOf(s.phase.u.next))
  }

  lemma SameScheduleWhenSame(a: Snapshot, b: Snapshot)
    requires SameSensitive(a, b)
    ensures EntryOf(a) == EntryOf(b) && a.cronExpr == b.cronExpr && a.tz == b.tz
  {
  }

  lemma WriteKeepsHeap(env: Env, s: Ctl)
    requires HeapAgrees(env, s) && s.phase.Deciding?
    ensures HeapAgrees(env, DoUpsertWrite(s))
  {
    var u, seen, t := s.phase.u, s.phase.seen, DoUpsertWrite(s);
    if |u.next.prompt| <= MAX_PROMPT_BYTES {
      UpsertNeverEnables(seen.Some? && seen.value.enabled, if seen.Some? then Some(seen.value.snap) else None, u.next);
      if seen.Some? && SameSensitive(seen.value.snap, u.next) {
        SameScheduleWhenSame(seen.value.snap, u.next);
      }
    }
    hide SameSensitive, DecideUpsert, EntryOf;
    assert EntryOk(env, s, u.id);
    forall id | !InDoubt(t, id) ensures EntryOk(env, t, id) {
      assert InDoubt(s, id) || EntryOk(env, s, id);
    }
  }

  lemma StoredSameEntry(a: Snapshot)
    ensures EntryOf(Stored(a)) == EntryOf(a)
  {
  }

  lemma FinishKeepsHeap(env: Env, s: Ctl)
    requires HeapAgrees(env, s) && s.phase.Reconciling?
    ensures HeapAgrees(env, DoUpsertFinish(s))
  {
    StoredSameEntry(s.phase.u.next);
    hide EntryOf, WithoutCron, Stored;
    var t := DoUpsertFinish(s);
    forall id | !InDoubt(t, id) ensures EntryOk(env, t, id) {
      assert InDoubt(s, id) || EntryOk(env, s, id);
    }
  }

  lemma SetEnabledKeepsHeap(env: Env, s: Ctl, step: Step)
    requires HeapAgrees(env, s) && step.SetEnabled?
    ensures HeapAgrees(env, Next(env, s, step))
  {
    hide EntryOf, WithoutCron, Presented, Issued, Refusal;
    var t := Next(env, s, step);
    forall id | !InDoubt(t, id) ensures EntryOk(env, t, id) {
      assert InDoubt(s, id) || EntryOk(env, s, id);
    }
  }

  lemma PauseKeepsHeap(env: Env, s: Ctl, step: Step)
    requires HeapAgrees(env, s) && (step.AutoPause? || step.CountRun?)
    ensures HeapAgrees(env, Next(env, s, step))
  {
    hide EntryOf;
    var t := Next(env, s, step);
    forall id | !InDoubt(t, id) ensures EntryOk(env, t, id) {
      assert InDoubt(s, id) || EntryOk(env, s, id);
    }
  }

  lemma BeginOrDeleteKeepsHeap(env: Env, s: Ctl, step: Step)
    requires HeapAgrees(env, s) && (step.UpsertBegin? || step.Delete?)
    ensures HeapAgrees(env, Next(env, s, step))
  {
    hide EntryOf, WithoutCron;
    var t := Next(env, s, step);
    assert step.UpsertBegin? && !InDoubt(s, step.u.id) ==> EntryOk(env, s, step.u.id);
    forall id | !InDoubt(t, id) ensures EntryOk(env, t, id) {
      assert InDoubt(s, id) || EntryOk(env, s, id);
    }
  }

  lemma StepKeepsHeap(env: Env, s: Ctl, step: Step)
    requires HeapAgrees(env, s)
    ensures HeapAgrees(env, Next(env, s, step))
  {
    hide HeapAgrees, DoUpsertBegin, DoSetEnabled, DoDelete, DoCountRun, DoAutoPause;
    match step
    case UpsertBegin(_) => BeginOrDeleteKeepsHeap(env, s, step);
    case UpsertWrite => if s.phase.Deciding? { WriteKeepsHeap(env, s); }
    case UpsertFinish => if s.phase.Reconciling? { FinishKeepsHeap(env, s); }
    case SetEnabled(_, _, _, _, _, _) => SetEnabledKeepsHeap(env, s, step);
    case Delete(_) => BeginOrDeleteKeepsHeap(env, s, step);
    case CountRun(_, _) => PauseKeepsHeap(env, s, step);
    case AutoPause(_) => PauseKeepsHeap(env, s, step);
  }

  lemma {:induction false} RunKeepsHeap(env: Env, s0: Ctl, steps: seq<Step>)
    requires Start(env, s0)
    ensures HeapAgrees(env, Run(env, s0, steps))
  {
    if |steps| == 0 {
    } else {
      RunKeepsHeap(env, s0, steps[..|steps| - 1]);
      StepKeepsHeap(env, Run(env, s0, steps[..|steps| - 1]), steps[|steps| - 1]);
      hide HeapAgrees, Next;
    }
  }

  /** Every heap entry is an enabled row, but for rows an auto-pause turned off. */
  ghost predicate NoneParked(s: Ctl) {
    && (forall id :: id in s.heap && !InDoubt(s, id) ==> EnabledIn(s, id))
    && (s.phase.Deciding? && s.phase.seen.Some? ==> (s.phase.seen.value.enabled <==> EnabledIn(s, s.phase.u.id)))
    && (s.phase.Deciding? && s.phase.seen.None? ==> s.phase.u.id !in s.rows)
  }

  lemma StepKeepsNoneParked(env: Env, s: Ctl, step: Step)
    requires NoneParked(s) && !step.AutoPause?
    ensures NoneParked(Next(env, s, step))
  {
    hide EntryOf, WithoutCron, Presented, Issued, Refusal, Decide;
  }

  lemma {:induction false} RunKeepsNoneParked(env: Env, s0: Ctl, steps: seq<Step>)
    requires Start(env, s0) && forall k :: 0 <= k < |steps| ==> !steps[k].AutoPause?
    ensures NoneParked(Run(env, s0, steps))
  {
    if |steps| == 0 {
    } else {
      RunKeepsNoneParked(env, s0, steps[..|steps| - 1]);
      StepKeepsNoneParked(env, Run(env, s0, steps[..|steps| - 1]), steps[|steps| - 1]);
      hide NoneParked, Next;
    }
  }

  ghost predicate AllRowsParse(env: Env, s: Ctl) {
    forall id :: id in s.rows ==> Parses(env, s.rows[id].snap)
  }

  lemma StepKeepsAllParse(env: Env, s: Ctl, step: Step)
    requires AllRowsParse(env, s) && FlightOk(env, s)
    ensures AllRowsParse(env, Next(env, s, step))
  {
    hide EntryOf, WithoutCron, Presented, Issued, Refusal, Decide;
  }

  /** A store whose every spec parses, disabled rows included, keeps it so through every run. */
  lemma {:induction false} RunKeepsAllParse(env: Env, s0: Ctl, steps: seq<Step>)
    requires Start(env, s0) && AllRowsParse(env, s0)
    ensures AllRowsParse(env, Run(env, s0, steps))
  {
    if |steps| == 0 {
    } else {
      var front := steps[..|steps| - 1];
      RunKeepsAllParse(env, s0, front);
      RunKeepsHeap(env, s0, front);
      StepKeepsAllParse(env, Run(env, s0, front), steps[|steps| - 1]);
      hide AllRowsParse, Next, EntryOk, FlightOk;
    }
  }

  ghost predicate AllEnabledParse(env: Env, s: Ctl) {
    forall id :: EnabledIn(s, id) ==> Parses(env, s.rows[id].snap)
  }

  lemma StepKeepsParse(env: Env, s: Ctl, step: Step)
    requires AllEnabledParse(env, s) && FlightOk(env, s)
    ensures AllEnabledParse(env, Next(env, s, step))
  {
    hide EntryOf, WithoutCron, Presented, Issued, Refusal, Decide;
  }

  lemma {:induction false} RunKeepsParse(env: Env, s0: Ctl, steps: seq<Step>)
    requires Start(env, s0) && AllEnabledParse(env, s0)
    ensures AllEnabledParse(env, Run(env, s0, steps))
  {
    if |steps| == 0 {
    } else {
      var front := steps[..|steps| - 1];
      RunKeepsParse(env, s0, front);
      RunKeepsHeap(env, s0, front);
      StepKeepsParse(env, Run(env, s0, front), steps[|steps| - 1]);
      hide AllEnabledParse, Next, EntryOk, FlightOk;
    }
  }

  /** The heap schedules exactly these enabled rows, with their own expression, zone and catch-up mode. */
  ghost predicate HeapIsEnabledRows(s: Ctl) {
    && (forall id :: id in s.heap <==> EnabledIn(s, id))
    && (forall id :: id in s.heap && id in s.rows ==> s.heap[id] == EntryOf(s.rows[id].snap))
  }

  lemma AllScheduled(env: Env, s: Ctl)
    requires AllEnabledParse(env, s) && forall id :: EntryOk(env, s, id)
    ensures forall id :: EnabledIn(s, id) ==> id in s.heap
    ensures forall id :: id in s.heap ==> id in s.rows && s.heap[id] == EntryOf(s.rows[id].snap)
  {
    forall id | EnabledIn(s, id) ensures id in s.heap {
      assert EntryOk(env, s, id);
    }
    forall id | id in s.heap ensures id in s.rows && s.heap[id] == EntryOf(s.rows[id].snap) {
      assert EntryOk(env, s, id);
    }
  }

  /**
   Storage and heap between handlers, in any run started on enabled rows that parse: every enabled
   cron is scheduled as its row says; if every row parsed at the start, disabled ones too, every
   row still does; and when no auto-pause interferes the heap is exactly the enabled rows.
   */
  lemma StorageAndHeapAgree(env: Env, s0: Ctl, steps: seq<Step>)
    requires Start(env, s0) && AllEnabledParse(env, s0)
    requires Run(env, s0, steps).phase == Idle
    ensures var s := Run(env, s0, steps);
            && (forall id :: EnabledIn(s, id) ==> id in s.heap)
            && (forall id :: id in s.heap ==> id in s.rows && s.heap[id] == EntryOf(s.rows[id].snap))
    ensures AllRowsParse(env, s0) ==> AllRowsParse(env, Run(env, s0, steps))
    ensures (forall k :: 0 <= k < |steps| ==> !steps[k].AutoPause?) ==> HeapIsEnabledRows(Run(env, s0, steps))
  {
    hide Run, EntryOf, Parses;
    if AllRowsParse(env, s0) {
      RunKeepsAllParse(env, s0, steps);
    }
    hide AllRowsParse;
    RunKeepsHeap(env, s0, steps);
    RunKeepsParse(env, s0, steps);
    var s := Run(env, s0, steps);
    AllScheduled(env, s);
    hide AllEnabledParse, EntryOk;
    if forall k :: 0 <= k < |steps| ==> !steps[k].AutoPause? {
      RunKeepsNoneParked(env, s0, steps);
    }
  }

  /** The step settles the row and the heap entry of cron `id` together. */
  predicate Settles(env: Env, s: Ctl, step: Step, id: string) {
    || (step.SetEnabled? && step.id == id && s.phase == Idle && id in s.rows
        && (!step.enabled || Confirms(env, s, step, id)))
    || (step.Delete? && step.id == id && s.phase == Idle)
    || (step.UpsertFinish? && InDoubt(s, id))
  }

  predicate PausesRow(s: Ctl, step: Step, id: string) {
    step == AutoPause(id) && EnabledIn(s, id) && !EnabledIn(DoAutoPause(s, id), id)
  }

  /** An auto-pause turned cron `id` off, and no handler has settled the cron since. */
  predicate PausedSinceSettled(env: Env, s0: Ctl, steps: seq<Step>, id: string) {
    |steps| > 0
    && var s, last := Run(env, s0, steps[..|steps| - 1]), steps[|steps| - 1];
       PausesRow(s, last, id)
       || (PausedSinceSettled(env, s0, steps[..|steps| - 1], id) && !Settles(env, s, last, id))
  }

  /** Scheduled although disabled. */
  predicate Stray(s: Ctl, id: string) {
    id in s.heap && !EnabledIn(s, id)
  }

  lemma StepTracksStray(env: Env, s: Ctl, step: Step, id: string, paused: bool)
    requires HeapAgrees(env, s) && AllEnabledParse(env, s)
    requires InDoubt(s, id) || (Stray(s, id) <==> paused)
    ensures InDoubt(Next(env, s, step), id)
            || (Stray(Next(env, s, step), id) <==> PausesRow(s, step, id) || (paused && !Settles(env, s, step, id)))
  {
    assert InDoubt(s, id) || EntryOk(env, s, id);
    assert EnabledIn(s, id) ==> Parses(env, s.rows[id].snap);
    hide EntryOf, WithoutCron, Presented, Issued, Refusal, Decide, HeapAgrees, AllEnabledParse, Parses;
  }

  /** A disabled cron is in the heap exactly when an auto-pause turned it off and nothing has settled it since. */
  lemma {:induction false} StrayIffPaused(env: Env, s0: Ctl, steps: seq<Step>, id: string)
    requires Start(env, s0) && AllEnabledParse(env, s0)
    ensures InDoubt(Run(env, s0, steps), id)
            || (Stray(Run(env, s0, steps), id) <==> PausedSinceSettled(env, s0, steps, id))
  {
    if |steps| == 0 {
    } else {
      var front, last := steps[..|steps| - 1], steps[|steps| - 1];
      StrayIffPaused(env, s0, front, id);
      RunKeepsHeap(env, s0, front);
      RunKeepsParse(env, s0, front);
      StepTracksStray(env, Run(env, s0, front), last, id, PausedSinceSettled(env, s0, front, id));
      hide HeapAgrees, AllEnabledParse, Next, Settles, PausesRow, Stray, InDoubt;
    }
  }

  /** One failing run at its threshold, and the pause that follows, are enough to leave a disabled cron in the heap. */
  lemma AutoPauseLeavesEntry(env: Env, snap: Snapshot)
    requires Parses(env, snap)
    ensures var s0 := Ctl(map["c" := Row(snap, true, 1, 0)], map["c" := EntryOf(snap)], map[], Idle);
            var steps := [CountRun("c", true), AutoPause("c")];
            && Start(env, s0)
            && !EnabledIn(Run(env, s0, steps), "c") && "c" in Run(env, s0, steps).heap
  {
    var s0 := Ctl(map["c" := Row(snap, true, 1, 0)], map["c" := EntryOf(snap)], map[], Idle);
    var steps := [CountRun("c", true), AutoPause("c")];
    assert steps[..1] == [CountRun("c", true)] && steps[..1][..0] == [];
    assert Run(env, s0, []) == s0;
    assert Run(env, s0, steps[..1]) == DoCountRun(s0, "c", true);
  }
}
