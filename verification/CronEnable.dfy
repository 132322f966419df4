/** Every enable of a cron is confirmed: the trace property of the two-step enable, over every run. */
module CronEnable {
  import opened Wrappers
  import opened CronSecurity
  import opened Confirmations
  import opened CronControlModel

  /** Step `step` in state `s` puts token `t` in place for a pending confirmation `p`. */
  predicate Issues(env: Env, s: Ctl, step: Step, t: string, p: Pending) {
    && step.SetEnabled? && step.enabled && step.token.None? && step.random == Some(t)
    && s.phase == Idle && step.id in s.rows
    && p == PendingFor(env, s, step.id, step.summary, step.now)
  }

  /** The steps after which a token issued earlier for cron `id` must no longer work. */
  predicate Spoils(env: Env, s: Ctl, step: Step, t: string, id: string) {
    match step
    case SetEnabled(x, enabled, token, _, now, random) =>
      && s.phase == Idle && x in s.rows
      && (if !enabled then x == id
          else if token.None? then random == Some(t)
          else token == Some(t) || (x == id && RejectedAsStale(env, s, x, token.value, now)))
    case Delete(x) => s.phase == Idle && x == id
    case UpsertFinish => s.phase.Reconciling? && s.phase.u.id == id && s.phase.reconfirm && id in s.rows
    case _ => false
  }

  predicate RejectedAsStale(env: Env, s: Ctl, id: string, t: string, now: nat)
    requires id in s.rows
  {
    Refusal(s.tokens, id, t, Fingerprint(env, s.rows[id].snap), now) == Some(SensitiveSnapshotChanged)
  }

  /** A pending token was put there by this step, or was there before and the step did not spoil it. */
  lemma TokenSurvives(env: Env, s: Ctl, step: Step, t: string)
    requires t in Next(env, s, step).tokens
    ensures var p := Next(env, s, step).tokens[t];
            || Issues(env, s, step, t, p)
            || (t in s.tokens && s.tokens[t] == p && !Spoils(env, s, step, t, p.cronId))
  {
    hide Fingerprint;
  }

  /** Since its issue at some step of the run, nothing has spoiled token `t`. */
  predicate Since(env: Env, s0: Ctl, steps: seq<Step>, t: string, p: Pending) {
    |steps| > 0
    && var s, last := Run(env, s0, steps[..|steps| - 1]), steps[|steps| - 1];
       Issues(env, s, last, t, p)
       || (Since(env, s0, steps[..|steps| - 1], t, p) && !Spoils(env, s, last, t, p.cronId))
  }

  lemma {:induction false} PendingSince(env: Env, s0: Ctl, steps: seq<Step>, t: string)
    requires s0.tokens == map[]
    requires t in Run(env, s0, steps).tokens
    ensures Since(env, s0, steps, t, Run(env, s0, steps).tokens[t])
  {
    hide Next, Issues, Spoils;
    if |steps| > 0 {
      var front := steps[..|steps| - 1];
      TokenSurvives(env, Run(env, s0, front), steps[|steps| - 1], t);
      if t in Run(env, s0, front).tokens {
        PendingSince(env, s0, front, t);
      }
    }
  }

  predicate IssuedAt(env: Env, s0: Ctl, steps: seq<Step>, i: nat, t: string, p: Pending) {
    i < |steps| && Issues(env, At(env, s0, steps, i), steps[i], t, p)
  }

  predicate SpoiledAt(env: Env, s0: Ctl, steps: seq<Step>, k: nat, t: string, id: string) {
    k < |steps| && Spoils(env, At(env, s0, steps, k), steps[k], t, id)
  }

  lemma {:induction false} SinceMeans(env: Env, s0: Ctl, steps: seq<Step>, t: string, p: Pending) returns (i: nat)
    requires Since(env, s0, steps, t, p)
    ensures IssuedAt(env, s0, steps, i, t, p)
    ensures forall k :: i < k < |steps| ==> !SpoiledAt(env, s0, steps, k, t, p.cronId)
  {
    hide Run, Issues, Spoils;
    var n := |steps| - 1;
    var front := steps[..n];
    if Issues(env, Run(env, s0, front), steps[n], t, p) {
      i := n;
    } else {
      i := SinceMeans(env, s0, front, t, p);
      assert front[..i] == steps[..i];
      forall k | i < k < |steps| ensures !SpoiledAt(env, s0, steps, k, t, p.cronId) {
        if k < n {
          assert !SpoiledAt(env, s0, front, k, t, p.cronId);
          assert front[..k] == steps[..k];
        }
      }
    }
  }

  /** A step that turns a cron on. */
  predicate Enables(env: Env, s: Ctl, step: Step, id: string) {
    !EnabledIn(s, id) && EnabledIn(Next(env, s, step), id)
  }

  /** Step `step` presents a live token of the cron, issued for content with the present fingerprint. */
  predicate Confirms(env: Env, s: Ctl, step: Step, id: string) {
    && step.SetEnabled? && step.enabled && step.token.Some? && step.id == id
    && s.phase == Idle && id in s.rows && Parses(env, s.rows[id].snap)
    && Refusal(s.tokens, id, step.token.value, Fingerprint(env, s.rows[id].snap), step.now).None?
  }

  /** An upsert's write re-enables a cron that it had read as enabled. */
  predicate WritesStaleFlag(s: Ctl, step: Step, id: string) {
    && step.UpsertWrite? && s.phase.Deciding? && s.phase.u.id == id
    && s.phase.seen.Some? && s.phase.seen.value.enabled
    && ChangedFields(s.phase.seen.value.snap, s.phase.u.next) == []
    && |s.phase.u.next.prompt| <= MAX_PROMPT_BYTES
  }

  /** A cron is turned on by a confirmation or by an upsert writing back a flag it read; by nothing else. */
  lemma EnablesIff(env: Env, s: Ctl, step: Step, id: string)
    ensures Enables(env, s, step, id)
            <==> !EnabledIn(s, id) && (Confirms(env, s, step, id) || WritesStaleFlag(s, step, id))
  {
    hide Fingerprint, ChangedFields, Presented, Issued, WithoutCron;
  }

  /** Steps `i` and `j` of the run are the issue of a token and its redemption for cron `id`. */
  ghost predicate ConfirmedBy(env: Env, s0: Ctl, steps: seq<Step>, i: nat, j: nat, id: string) {
    && i < j < |steps|
    && steps[i].SetEnabled? && steps[i].id == id && steps[i].enabled && steps[i].token.None? && steps[i].random.Some?
    && steps[j].SetEnabled? && steps[j].id == id && steps[j].token == steps[i].random
    && steps[j].now < steps[i].now + CONFIRMATION_TOKEN_TTL
    && (forall k :: i < k < j ==> !SpoiledAt(env, s0, steps, k, steps[j].token.value, id))
    && SpoiledAt(env, s0, steps, j, steps[j].token.value, id)
    && SameFingerprint(env, At(env, s0, steps, i), At(env, s0, steps, j), id)
  }

  predicate SameFingerprint(env: Env, a: Ctl, b: Ctl, id: string) {
    id in a.rows && id in b.rows && Fingerprint(env, a.rows[id].snap) == Fingerprint(env, b.rows[id].snap)
  }

  /** A redemption always has its issue: same cron, within the lifetime, same fingerprint, nothing spoiled in between. */
  lemma ConfirmationHasIssue(env: Env, s0: Ctl, steps: seq<Step>, j: nat, id: string) returns (i: nat)
    requires s0.tokens == map[]
    requires j < |steps| && Confirms(env, At(env, s0, steps, j), steps[j], id)
    ensures ConfirmedBy(env, s0, steps, i, j, id)
  {
    hide Run, Fingerprint, Parses;
    var front, t := steps[..j], steps[j].token.value;
    var p := At(env, s0, steps, j).tokens[t];
    PendingSince(env, s0, front, t);
    i := SinceMeans(env, s0, front, t, p);
    assert front[..i] == steps[..i];
    forall k | i < k < j ensures !SpoiledAt(env, s0, steps, k, t, id) {
      assert !SpoiledAt(env, s0, front, k, t, id);
      assert front[..k] == steps[..k];
    }
  }

  /** Two redemptions never share an issue. */
  lemma IssuesAreDistinct(env: Env, s0: Ctl, steps: seq<Step>, i: nat, j: nat, idA: string, k: nat, idB: string)
    requires ConfirmedBy(env, s0, steps, i, j, idA) && ConfirmedBy(env, s0, steps, i, k, idB)
    ensures j == k
  {
    hide SpoiledAt, SameFingerprint;
  }

  /** Since the upsert in flight for cron `id` read the row, an auto-pause turned the row off. */
  predicate PausedInFlight(env: Env, s0: Ctl, steps: seq<Step>, id: string) {
    |steps| > 0
    && var s, last := Run(env, s0, steps[..|steps| - 1]), steps[|steps| - 1];
       s.phase.Deciding? && !last.UpsertWrite?
       && ((last == AutoPause(id) && EnabledIn(s, id) && !EnabledIn(Next(env, s, last), id))
           || PausedInFlight(env, s0, steps[..|steps| - 1], id))
  }

  /** The row an upsert has read stays as read, but for a pause. */
  predicate RowAsRead(s: Ctl, paused: bool) {
    s.phase.Deciding? ==>
      var id, seen := s.phase.u.id, s.phase.seen;
      && (seen.Some? <==> id in s.rows)
      && (seen.Some? ==> s.rows[id].snap == seen.value.snap)
      && (seen.Some? && seen.value.enabled <==> EnabledIn(s, id) || paused)
      && !(EnabledIn(s, id) && paused)
  }

  lemma {:induction false} InFlightRow(env: Env, s0: Ctl, steps: seq<Step>)
    requires s0.phase == Idle
    ensures var s := Run(env, s0, steps);
            s.phase.Deciding? ==> RowAsRead(s, PausedInFlight(env, s0, steps, s.phase.u.id))
  {
    if |steps| > 0 {
      var front, last := steps[..|steps| - 1], steps[|steps| - 1];
      InFlightRow(env, s0, front);
      var s := Run(env, s0, front);
      RowAsReadStep(env, s, last, s.phase.Deciding? && PausedInFlight(env, s0, front, s.phase.u.id));
      hide RowAsRead, Next;
    }
  }

  predicate PausesNow(env: Env, s: Ctl, step: Step) {
    s.phase.Deciding? && step == AutoPause(s.phase.u.id)
    && EnabledIn(s, s.phase.u.id) && !EnabledIn(Next(env, s, step), s.phase.u.id)
  }

  lemma RowAsReadStep(env: Env, s: Ctl, step: Step, paused: bool)
    requires RowAsRead(s, paused)
    ensures Next(env, s, step).phase.Deciding? ==>
              if s.phase.Deciding? then
                !step.UpsertWrite? && Next(env, s, step).phase == s.phase
                && RowAsRead(Next(env, s, step), paused || PausesNow(env, s, step))
              else step.UpsertBegin? && RowAsRead(Next(env, s, step), false)
  {
    hide Presented, Issued, Decide;
  }

  /** An upsert turns a cron on exactly when it wrote back an enabled flag that an auto-pause had cleared in the meantime. */
  lemma UpsertEnablesIffPauseLost(env: Env, s0: Ctl, front: seq<Step>, id: string)
    requires Start(env, s0)
    ensures Enables(env, Run(env, s0, front), UpsertWrite, id)
            <==> WritesStaleFlag(Run(env, s0, front), UpsertWrite, id) && PausedInFlight(env, s0, front, id)
  {
    InFlightRow(env, s0, front);
    EnablesIff(env, Run(env, s0, front), UpsertWrite, id);
    hide PausedInFlight, Enables, ChangedFields, Run;
  }

  /**
   The two-step enable: in any run, a step that turns a cron on redeems its own token, issued
   earlier for that cron and that content and not spoiled since; or it is an upsert that undid
   an auto-pause it had not seen.
   */
  lemma EveryEnableIsConfirmed(env: Env, s0: Ctl, steps: seq<Step>, j: nat, id: string)
    requires Start(env, s0) && j < |steps|
    requires Enables(env, At(env, s0, steps, j), steps[j], id)
    ensures || (exists i :: ConfirmedBy(env, s0, steps, i, j, id))
            || (steps[j].UpsertWrite? && PausedInFlight(env, s0, steps[..j], id))
  {
    hide Run, ConfirmedBy, PausedInFlight, ChangedFields, Next, Fingerprint, Parses;
    var s := At(env, s0, steps, j);
    EnablesIff(env, s, steps[j], id);
    if Confirms(env, s, steps[j], id) {
      var i := ConfirmationHasIssue(env, s0, steps, j, id);
    } else {
      UpsertEnablesIffPauseLost(env, s0, steps[..j], id);
    }
  }

  /** A cron that a failing run and its auto-pause have turned off is on again once the upsert they raced with has written. */
  lemma AutoPauseCanBeLost(env: Env, snap: Snapshot)
    requires Parses(env, snap) && ChangedFields(snap, snap) == [] && |snap.prompt| <= MAX_PROMPT_BYTES
    ensures var s0 := Ctl(map["c" := Row(snap, true, 1, 0)], map["c" := EntryOf(snap)], map[], Idle);
            var u := Upsert("c", snap, 1, 0);
            && Start(env, s0)
            && !EnabledIn(Run(env, s0, [UpsertBegin(u), CountRun("c", true), AutoPause("c")]), "c")
            && EnabledIn(Run(env, s0, [UpsertBegin(u), CountRun("c", true), AutoPause("c"), UpsertWrite]), "c")
  {
    hide ChangedFields;
    var s0 := Ctl(map["c" := Row(snap, true, 1, 0)], map["c" := EntryOf(snap)], map[], Idle);
    var u := Upsert("c", snap, 1, 0);
    var steps := [UpsertBegin(u), CountRun("c", true), AutoPause("c"), UpsertWrite];
    assert steps[..3] == [UpsertBegin(u), CountRun("c", true), AutoPause("c")];
    assert steps[..3][..2] == [UpsertBegin(u), CountRun("c", true)];
    assert steps[..3][..2][..1] == [UpsertBegin(u)];
    assert steps[..3][..2][..1][..0] == [];
    assert Run(env, s0, []) == s0;
    var s1 := DoUpsertBegin(env, s0, u);
    assert Run(env, s0, steps[..3][..2][..1]) == s1;
    var s2 := DoCountRun(s1, "c", true);
    assert Run(env, s0, steps[..3][..2]) == s2;
    assert Run(env, s0, steps[..3]) == DoAutoPause(s2, "c");
  }
}
