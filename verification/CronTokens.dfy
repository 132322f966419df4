/**
 Which confirmation tokens stand at any moment, told from the steps of a run alone; and from that,
 what a presented token is answered and exactly when it turns a cron on.
 */
module CronTokens {
  import opened Wrappers
  import opened CronSecurity
  import opened Confirmations
  import opened CronControlModel
  import opened CronEnable

  /** A request that the control channel acts on: nobody else holds its lock, and the cron is there. */
  predicate Acts(s: Ctl, step: Step) {
    step.SetEnabled? && s.phase == Idle && step.id in s.rows
  }

  /** The step issues token `t`. */
  predicate PutsOut(s: Ctl, step: Step, t: string) {
    Acts(s, step) && step.enabled && step.token.None? && step.random == Some(t)
  }

  /** What a token issued by the step stands for: this cron with this content, for five minutes. */
  function PutOut(env: Env, s: Ctl, step: Step): Pending
    requires Acts(s, step)
  {
    Pending(step.id, step.now + 300_000_000_000, step.summary, env.hash(Stream(s.rows[step.id].snap)))
  }

  /** The step finds the token expired while it clears expired tokens out: at an issue, or at an unknown token. */
  predicate Sweeps(s: Ctl, step: Step, p: Pending, presented: Option<Pending>) {
    Acts(s, step) && step.enabled && (step.token.None? || presented.None?) && step.now >= p.expiresAt
  }

  /**
   The step takes token `t`, which stands for `p`, out of use: it presents the token; it disables or
   deletes the cron, or completes a sensitive edit that disabled it; or it presents another token of the
   cron, in time, that was issued for other content. `presented` is what the presented token stands for.
   */
  predicate Voids(env: Env, s: Ctl, step: Step, t: string, p: Pending, presented: Option<Pending>) {
    match step
    case SetEnabled(x, enabled, token, _, now, _) =>
      && Acts(s, step)
      && (if !enabled then x == p.cronId
          else
            || token == Some(t)
            || (token.Some? && presented.Some? && x == p.cronId == presented.value.cronId
                && now < presented.value.expiresAt && presented.value.fingerprint != env.hash(Stream(s.rows[x].snap))))
    case Delete(x) => s.phase == Idle && x == p.cronId
    case UpsertFinish => s.phase.Reconciling? && s.phase.reconfirm && s.phase.u.id == p.cronId && p.cronId in s.rows
    case _ => false
  }

  predicate Ends(env: Env, s: Ctl, step: Step, t: string, p: Pending, presented: Option<Pending>) {
    Sweeps(s, step, p, presented) || Voids(env, s, step, t, p, presented)
  }

  /** A token that stands: the step that issued it, and what for. */
  datatype Standing = Standing(at: nat, p: Pending)

  /** What stands under the name `t` after a run. */
  function StandingToken(env: Env, s0: Ctl, steps: seq<Step>, t: string): Option<Standing>
    decreases |steps|, 0
  {
    if steps == [] then None
    else
      var front, last := steps[..|steps| - 1], steps[|steps| - 1];
      var s, before := Run(env, s0, front), StandingToken(env, s0, front, t);
      if PutsOut(s, last, t) then Some(Standing(|steps| - 1, PutOut(env, s, last)))
      else if before.Some? && Ends(env, s, last, t, before.value.p, PresentedIn(env, s0, front, last)) then None
      else before
  }

  /** What the token that the step presents stands for, if it stands. */
  function PresentedIn(env: Env, s0: Ctl, front: seq<Step>, step: Step): Option<Pending>
    decreases |front|, 1
  {
    if step.SetEnabled? && step.token.Some? then
      var st := StandingToken(env, s0, front, step.token.value);
      if st.Some? then Some(st.value.p) else None
    else None
  }

  function Lookup(m: Tokens, t: string): Option<Pending> {
    if t in m then Some(m[t]) else None
  }

  function Meant(st: Option<Standing>): Option<Pending> {
    if st.Some? then Some(st.value.p) else None
  }

  lemma StepStands(env: Env, s: Ctl, step: Step, t: string, presented: Option<Pending>)
    requires presented == if step.SetEnabled? && step.token.Some? then Lookup(s.tokens, step.token.value) else None
    ensures Lookup(Next(env, s, step).tokens, t) ==
            var before := Lookup(s.tokens, t);
            if PutsOut(s, step, t) then Some(PutOut(env, s, step))
            else if before.Some? && Ends(env, s, step, t, before.value, presented) then None
            else before
  {
    hide Stream, EntryOf, Parses, DecideUpsert;
  }

  /** In every run the pending tokens are exactly those that stand, each for what it was issued for. */
  lemma {:induction false} PendingIsStanding(env: Env, s0: Ctl, steps: seq<Step>, t: string)
    requires s0.tokens == map[]
    ensures Lookup(Run(env, s0, steps).tokens, t) == Meant(StandingToken(env, s0, steps, t))
  {
    hide Next, PutsOut, Ends, PutOut;
    if |steps| > 0 {
      var front, last := steps[..|steps| - 1], steps[|steps| - 1];
      PendingIsStanding(env, s0, front, t);
      if last.SetEnabled? && last.token.Some? {
        PendingIsStanding(env, s0, front, last.token.value);
      }
      StepStands(env, Run(env, s0, front), last, t, PresentedIn(env, s0, front, last));
    }
  }

  /** Token `t`, standing for `p`, is neither issued anew nor ended by step `k` of the run. */
  predicate LeftAlone(env: Env, s0: Ctl, steps: seq<Step>, k: nat, t: string, p: Pending) {
    k < |steps| && !PutsOut(At(env, s0, steps, k), steps[k], t)
    && !Ends(env, At(env, s0, steps, k), steps[k], t, p, PresentedIn(env, s0, steps[..k], steps[k]))
  }

  /** A token stands after a run exactly when a step of the run issued it and no later one issued it anew or ended it. */
  lemma {:induction false} StandsIff(env: Env, s0: Ctl, steps: seq<Step>, t: string, i: nat, p: Pending)
    ensures StandingToken(env, s0, steps, t) == Some(Standing(i, p)) <==>
              && i < |steps| && PutsOut(At(env, s0, steps, i), steps[i], t) && p == PutOut(env, At(env, s0, steps, i), steps[i])
              && forall k :: i < k < |steps| ==> LeftAlone(env, s0, steps, k, t, p)
  {
    hide Run, PutsOut, PutOut, Ends, PresentedIn;
    if |steps| > 0 {
      var n := |steps| - 1;
      var front := steps[..n];
      StandsIff(env, s0, front, t, i, p);
      if i < n {
        assert front[..i] == steps[..i];
        forall k | i < k < n ensures LeftAlone(env, s0, front, k, t, p) <==> LeftAlone(env, s0, steps, k, t, p) {
          assert front[..k] == steps[..k];
        }
        var stood := forall k :: i < k < n ==> LeftAlone(env, s0, steps, k, t, p);
        var left := LeftAlone(env, s0, steps, n, t, p);
        hide LeftAlone;
        assert (forall k :: i < k < n ==> LeftAlone(env, s0, front, k, t, p)) <==> stood;
        assert (forall k :: i < k < |steps| ==> LeftAlone(env, s0, steps, k, t, p)) <==> stood && left;
      }
    }
  }

  /** The content of the cron at step `i` has the fingerprint it has in `s`. */
  predicate SameContent(env: Env, s0: Ctl, steps: seq<Step>, i: nat, s: Ctl, id: string) {
    i < |steps| && SameFingerprint(env, At(env, s0, steps, i), s, id)
  }

  /**
   What a presented token is answered, in any run: invalid when it does not stand; expired five
   minutes after its issue; of another cron; stale when the content has another fingerprint than
   at the issue; and otherwise confirmed.
   */
  lemma AnswerIs(env: Env, s0: Ctl, steps: seq<Step>, id: string, t: string, now: nat)
    requires s0.tokens == map[] && id in Run(env, s0, steps).rows
    ensures var s, st := Run(env, s0, steps), StandingToken(env, s0, steps, t);
            && (st.Some? ==> st.value.at < |steps| && steps[st.value.at].SetEnabled?)
            && Refusal(s.tokens, id, t, Fingerprint(env, s.rows[id].snap), now) ==
               if st.None? then Some(InvalidConfirmationToken)
               else if now >= steps[st.value.at].now + 300_000_000_000 then Some(ExpiredConfirmationToken)
               else if steps[st.value.at].id != id then Some(TokenCronMismatch)
               else if !SameContent(env, s0, steps, st.value.at, s, id) then Some(SensitiveSnapshotChanged)
               else None
  {
    PendingIsStanding(env, s0, steps, t);
    var st := StandingToken(env, s0, steps, t);
    if st.Some? {
      StandsIff(env, s0, steps, t, st.value.at, st.value.p);
    }
    hide Run, StandingToken, Stream, LeftAlone;
  }

  /** Token `t` was issued in the run for this cron with its present content, less than five minutes ago, and stands. */
  predicate Redeemable(env: Env, s0: Ctl, steps: seq<Step>, id: string, t: string, now: nat) {
    var st := StandingToken(env, s0, steps, t);
    && st.Some? && st.value.at < |steps|
    && steps[st.value.at].SetEnabled? && steps[st.value.at].id == id
    && now < steps[st.value.at].now + 300_000_000_000
    && SameContent(env, s0, steps, st.value.at, Run(env, s0, steps), id)
  }

  /**
   Presenting a token for a cron, with nobody else holding the lock, enables it if and only if the
   token is redeemable and the spec parses; the cron is then in the heap as its row says. Otherwise
   neither storage nor heap changes.
   */
  lemma TokenEnablesIff(env: Env, s0: Ctl, steps: seq<Step>, step: Step)
    requires s0.tokens == map[]
    requires Acts(Run(env, s0, steps), step) && step.enabled && step.token.Some?
    ensures var s, s' := Run(env, s0, steps), Run(env, s0, steps + [step]);
            if Redeemable(env, s0, steps, step.id, step.token.value, step.now) && Parses(env, s.rows[step.id].snap)
            then s'.rows == s.rows[step.id := s.rows[step.id].(enabled := true)]
                 && s'.heap == s.heap[step.id := EntryOf(s.rows[step.id].snap)]
            else s'.rows == s.rows && s'.heap == s.heap
  {
    assert (steps + [step])[..|steps|] == steps;
    AnswerIs(env, s0, steps, step.id, step.token.value, step.now);
    hide StandingToken, Presented, Stream, EntryOf, SameContent, Refusal, Fingerprint, Parses;
    var s := Run(env, s0, steps);
    assert Run(env, s0, steps + [step]) == DoConfirm(env, s, step.id, step.token.value, step.now);
    hide Run;
  }

  /** Step `k` leaves the token issued at `i` in use, on a clock at which it has not expired. */
  predicate Spares(env: Env, s0: Ctl, steps: seq<Step>, k: nat, t: string, p: Pending) {
    k < |steps| && !PutsOut(At(env, s0, steps, k), steps[k], t)
    && !Voids(env, At(env, s0, steps, k), steps[k], t, p, PresentedIn(env, s0, steps[..k], steps[k]))
  }

  /**
   The second step of an enable does what it is for. A token was issued for a cron at step `i` and is
   presented for it at step `j`, less than five minutes later on a clock that did not go back; between
   them nothing voided it; at `j` nobody else holds the lock, the content has the fingerprint it had
   at `i`, and the spec parses. Then the cron is enabled, and in the heap as its row says.
   */
  lemma ConfirmationSucceeds(env: Env, s0: Ctl, steps: seq<Step>, i: nat, j: nat, t: string)
    requires s0.tokens == map[] && i < j < |steps|
    requires PutsOut(At(env, s0, steps, i), steps[i], t)
    requires Acts(At(env, s0, steps, j), steps[j]) && steps[j].enabled && steps[j].token == Some(t) && steps[j].id == steps[i].id
    requires steps[j].now < steps[i].now + 300_000_000_000
    requires forall k :: i < k < j && steps[k].SetEnabled? ==> steps[k].now <= steps[j].now
    requires forall k :: i < k < j ==> Spares(env, s0, steps, k, t, PutOut(env, At(env, s0, steps, i), steps[i]))
    requires SameFingerprint(env, At(env, s0, steps, i), At(env, s0, steps, j), steps[i].id)
    requires Parses(env, At(env, s0, steps, j).rows[steps[i].id].snap)
    ensures var s := Run(env, s0, steps[..j + 1]);
            && EnabledIn(s, steps[i].id)
            && steps[i].id in s.heap && s.heap[steps[i].id] == EntryOf(s.rows[steps[i].id].snap)
  {
    var front, p := steps[..j], PutOut(env, At(env, s0, steps, i), steps[i]);
    assert front[..i] == steps[..i];
    forall k | i < k < j ensures LeftAlone(env, s0, front, k, t, p) {
      assert front[..k] == steps[..k];
      assert Spares(env, s0, steps, k, t, p);
      NotSwept(At(env, s0, steps, k), steps[k], p, PresentedIn(env, s0, steps[..k], steps[k]), steps[j].now);
    }
    hide Run, PutsOut, PutOut, Ends, PresentedIn, StandingToken, EntryOf, Fingerprint, Parses, LeftAlone, Spares;
    StandsIff(env, s0, front, t, i, p);
    TokenEnablesIff(env, s0, front, steps[j]);
    assert front + [steps[j]] == steps[..j + 1];
  }

  lemma NotSwept(s: Ctl, step: Step, p: Pending, presented: Option<Pending>, now: nat)
    requires now < p.expiresAt && (step.SetEnabled? ==> step.now <= now)
    ensures !Sweeps(s, step, p, presented)
  {
  }

  /** Issuing, clearing out, invalidating and presenting leave every unexpired token of another cron as it was. */
  lemma OthersSurvive(m: Tokens, t: string, cronId: string, p: Pending, presented: string, fingerprint: Bits64, now: nat,
                      random: Option<string>)
    requires t in m && m[t].cronId != cronId && m[t].expiresAt > now && random != Some(t) && presented != t
    ensures Lookup(Unexpired(m, now), t) == Some(m[t])
    ensures Lookup(Issued(m, p, now, random), t) == Some(m[t])
    ensures Lookup(WithoutCron(m, cronId), t) == Some(m[t])
    ensures Lookup(Presented(m, cronId, presented, fingerprint, now), t) == Some(m[t])
  {
  }
}
