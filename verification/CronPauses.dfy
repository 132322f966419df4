/** What turns a cron off, and the failures the auto-pause goes by. */
module CronPauses {
  import opened CronSecurity
  import opened Confirmations
  import opened CronControlModel
  import opened CronEnable

  /** The upsert in flight writes its row: it is of cron `id` and its prompt is not too long. */
  predicate Writes(s: Ctl, step: Step, id: string) {
    step.UpsertWrite? && s.phase.Deciding? && s.phase.u.id == id && |s.phase.u.next.prompt| <= 65_536
  }

  /** A step turns a cron off: a disable, a delete, an upsert that did not read it enabled and unchanged, or an auto-pause at the threshold. */
  lemma DisablesIff(env: Env, s: Ctl, step: Step, id: string)
    requires EnabledIn(s, id)
    ensures !EnabledIn(Next(env, s, step), id) <==>
              || (step.SetEnabled? && step.id == id && !step.enabled && s.phase == Idle)
              || (step == Delete(id) && s.phase == Idle)
              || (Writes(s, step, id) && !WritesStaleFlag(s, step, id))
              || (step == AutoPause(id) && s.rows[id].pauseAfter > 0 && s.rows[id].failures >= s.rows[id].pauseAfter)
  {
    hide Fingerprint, ChangedFields, Presented, Issued, WithoutCron, Refusal, EntryOf;
  }

  /** The failures since the cron's last success, from what an upsert or the start last set them to. */
  function Streak(env: Env, s0: Ctl, steps: seq<Step>, id: string): int {
    if steps == [] then if id in s0.rows then s0.rows[id].failures else 0
    else
      var s, last := Run(env, s0, steps[..|steps| - 1]), steps[|steps| - 1];
      if Writes(s, last, id) then s.phase.u.failures
      else if last == CountRun(id, true) then Streak(env, s0, steps[..|steps| - 1], id) + 1
      else if last == CountRun(id, false) then 0
      else Streak(env, s0, steps[..|steps| - 1], id)
  }

  /** The threshold that an upsert or the start last set. */
  function Threshold(env: Env, s0: Ctl, steps: seq<Step>, id: string): int {
    if steps == [] then if id in s0.rows then s0.rows[id].pauseAfter else 0
    else
      var s, last := Run(env, s0, steps[..|steps| - 1]), steps[|steps| - 1];
      if Writes(s, last, id) then s.phase.u.pauseAfter else Threshold(env, s0, steps[..|steps| - 1], id)
  }

  lemma StepCounts(env: Env, s: Ctl, step: Step, id: string)
    requires id in Next(env, s, step).rows
    ensures id in s.rows || Writes(s, step, id)
    ensures Next(env, s, step).rows[id].failures ==
            if Writes(s, step, id) then s.phase.u.failures
            else if step == CountRun(id, true) then s.rows[id].failures + 1
            else if step == CountRun(id, false) then 0
            else s.rows[id].failures
    ensures Next(env, s, step).rows[id].pauseAfter == if Writes(s, step, id) then s.phase.u.pauseAfter else s.rows[id].pauseAfter
  {
    hide Fingerprint, ChangedFields, Presented, Issued, WithoutCron, Refusal, EntryOf, Stored;
  }

  lemma {:induction false} FailuresAre(env: Env, s0: Ctl, steps: seq<Step>, id: string)
    requires id in Run(env, s0, steps).rows
    ensures Run(env, s0, steps).rows[id].failures == Streak(env, s0, steps, id)
    ensures Run(env, s0, steps).rows[id].pauseAfter == Threshold(env, s0, steps, id)
  {
    if |steps| > 0 {
      var front := steps[..|steps| - 1];
      StepCounts(env, Run(env, s0, front), steps[|steps| - 1], id);
      if id in Run(env, s0, front).rows {
        FailuresAre(env, s0, front, id);
      }
      hide Next, Writes;
    }
  }

  /** In any run an auto-pause turns an enabled cron off if and only if it has failed as often in a row as its threshold allows. */
  lemma AutoPausesIff(env: Env, s0: Ctl, steps: seq<Step>, id: string)
    requires EnabledIn(Run(env, s0, steps), id)
    ensures !EnabledIn(Run(env, s0, steps + [AutoPause(id)]), id)
            <==> Streak(env, s0, steps, id) >= Threshold(env, s0, steps, id) > 0
  {
    assert (steps + [AutoPause(id)])[..|steps|] == steps;
    FailuresAre(env, s0, steps, id);
    hide Streak, Threshold;
  }
}
