/** The control channel as the source writes it: ordered updates of storage, heap and tokens. */
module CronControls {
  import opened Wrappers
  import opened CronSecurity
  import opened Confirmations
  import opened CronControlModel

  datatype ControlError =
    | InvalidSpec
    | NotFound(id: string)
    | Security(why: SecurityError)

  datatype SetEnabledOutcome =
    | Applied(cron: Row)
    | NeedsConfirmation(cron: Row, token: string, summary: Summary)

  class CronControl {
    const env: Env
    var rows: map<string, Row>
    var heap: map<string, HeapEntry>
    const tokens: ConfirmationTokens

    constructor (env: Env, rows: map<string, Row>, heap: map<string, HeapEntry>)
      ensures this.env == env && fresh(tokens)
      ensures View() == Ctl(rows, heap, map[], Idle)
    {
      this.env := env;
      this.rows := rows;
      this.heap := heap;
      tokens := new ConfirmationTokens();
    }

    ghost function View(): Ctl
      reads this, tokens
    {
      Ctl(rows, heap, tokens.pending, Idle)
    }

    /** An upsert no auto-pause interferes with: read, decide, write, reconcile, and only then drop tokens. */
    method Upsert(u: Upsert) returns (r: Result<(Row, bool), ControlError>)
      modifies this, tokens
      ensures View() == DoUpsertFinish(DoUpsertWrite(DoUpsertBegin(env, old(View()), u)))
      ensures !Parses(env, u.next) ==> r == Err(InvalidSpec)
      ensures Parses(env, u.next) ==>
                match Decide(u, if u.id in old(rows) then Some(old(rows)[u.id]) else None)
                case Err(why) => r == Err(Security(why)) && View() == old(View())
                case Ok(d) => u.id in rows && r == Ok((rows[u.id], d.requiresReconfirmation))
    {
      if !env.parses(u.next.cronExpr, u.next.tz) {
        return Err(InvalidSpec);
      }
      var existing := if u.id in rows then Some(rows[u.id]) else None;
      var decision := DecideUpsert(existing.Some? && existing.value.enabled,
                                   if existing.Some? then Some(existing.value.snap) else None, u.next);
      if decision.Err? {
        return Err(Security(decision.error));
      }
      var d := decision.value;
      rows := rows[u.id := Row(Stored(u.next), d.enabledAfterUpsert, u.pauseAfter, u.failures)];
      var cron := rows[u.id];
      if cron.enabled {
        heap := heap[u.id := EntryOf(u.next)];
      } else {
        heap := heap - {u.id};
      }
      if d.requiresReconfirmation {
        var _ := tokens.InvalidateCron(u.id);
      }
      return Ok((cron, d.requiresReconfirmation));
    }

    method SetEnabled(id: string, enabled: bool, token: Option<string>, summary: Summary, now: nat, random: Option<string>)
      returns (r: Result<SetEnabledOutcome, ControlError>)
      modifies this, tokens
      ensures View() == DoSetEnabled(env, old(View()), id, enabled, token, summary, now, random)
      ensures id !in old(rows) <==> r == Err(NotFound(id))
      ensures r.Ok? && r.value.Applied? ==>
                id in rows && r.value.cron == rows[id] && rows[id].enabled == enabled && (id in heap <==> enabled)
      ensures r.Ok? && r.value.NeedsConfirmation? ==>
                enabled && token.None? && Some(r.value.token) == random && rows == old(rows) && heap == old(heap)
      ensures r.Err? ==> rows == old(rows) && heap == old(heap)
      ensures id in old(rows) && enabled && token.None? && random.None? ==> r == Err(Security(RandomToken))
      ensures id in old(rows) && enabled && token.Some? ==>
                match Refusal(old(tokens.pending), id, token.value, Fingerprint(env, old(rows)[id].snap), now)
                case Some(why) => r == Err(Security(why))
                case None => if Parses(env, old(rows)[id].snap) then r.Ok? && r.value.Applied? else r == Err(InvalidSpec)
    {
      if id !in rows {
        return Err(NotFound(id));
      }
      var cron := rows[id];
      if !enabled {
        var _ := tokens.InvalidateCron(id);
        rows := rows[id := rows[id].(enabled := false)];
        heap := heap - {id};
        return Ok(Applied(rows[id]));
      }
      var fingerprint := env.hash(Stream(cron.snap));
      var gate := tokens.RequireOrConfirm(id, token, summary, fingerprint, now, random);
      if gate.Err? {
        return Err(Security(gate.error));
      }
      match gate.value
      case RequiresConfirmation(issued, shown) =>
        return Ok(NeedsConfirmation(cron, issued, shown));
      case Confirmed(_) =>
        if !env.parses(cron.snap.cronExpr, cron.snap.tz) {
          return Err(InvalidSpec);
        }
        rows := rows[id := rows[id].(enabled := true)];
        heap := heap[id := EntryOf(cron.snap)];
        return Ok(Applied(rows[id]));
    }

    method Delete(id: string) returns (removed: bool)
      modifies this, tokens
      ensures View() == DoDelete(old(View()), id)
      ensures removed <==> id in old(rows)
    {
      var _ := tokens.InvalidateCron(id);
      removed := id in rows;
      rows := rows - {id};
      heap := heap - {id};
    }
  }

  /** The listed crons by id. */
  function RowsOf(all: seq<(string, Row)>): map<string, Row> {
    if all == [] then map[] else RowsOf(all[..|all| - 1])[all[|all| - 1].0 := all[|all| - 1].1]
  }

  predicate Lists(all: seq<(string, Row)>, id: string) {
    exists j :: 0 <= j < |all| && all[j].0 == id
  }

  lemma {:induction false} RowsOfIds(all: seq<(string, Row)>, id: string)
    requires id in RowsOf(all)
    ensures Lists(all, id)
  {
    var n := |all| - 1;
    if id == all[n].0 {
    } else {
      RowsOfIds(all[..n], id);
      var j :| 0 <= j < n && all[..n][j].0 == id;
      assert all[j].0 == id;
    }
  }

  /** One more cron: a new id, in the heap when its row is enabled and parses. */
  lemma SeedOneMore(env: Env, all: seq<(string, Row)>, k: nat)
    requires k < |all| && !Lists(all[..k], all[k].0)
    ensures var (id, cron) := all[k];
            var heap := Seeded(env, RowsOf(all[..k]));
            Seeded(env, RowsOf(all[..k + 1]))
            == if cron.enabled && Parses(env, cron.snap) then heap[id := EntryOf(cron.snap)] else heap
  {
    assert all[..k + 1][..k] == all[..k];
    if all[k].0 in RowsOf(all[..k]) {
      RowsOfIds(all[..k], all[k].0);
    }
    hide EntryOf, Parses, Lists;
  }

  /** The daemon's start: one pass over the listed crons, skipping the disabled ones and those that do not parse. */
  method SeedCrons(env: Env, all: seq<(string, Row)>) returns (heap: map<string, HeapEntry>)
    requires forall k :: 0 <= k < |all| ==> !Lists(all[..k], all[k].0)
    ensures heap == Seeded(env, RowsOf(all))
    ensures Start(env, Ctl(RowsOf(all), heap, map[], Idle))
  {
    hide EntryOf, Lists, Seeded, RowsOf;
    assert Seeded(env, RowsOf(all[..0])) == map[] by {
      NothingToSeed(env, all);
    }
    heap := map[];
    for k := 0 to |all|
      invariant heap == Seeded(env, RowsOf(all[..k]))
    {
      var (id, cron) := all[k];
      SeedOneMore(env, all, k);
      if !cron.enabled {
        continue;
      }
      if env.parses(cron.snap.cronExpr, cron.snap.tz) {
        heap := heap[id := EntryOf(cron.snap)];
      }
    }
    assert all[..|all|] == all;
  }

  lemma NothingToSeed(env: Env, all: seq<(string, Row)>)
    ensures Seeded(env, RowsOf(all[..0])) == map[]
  {
    assert all[..0] == [];
  }

  /** The handlers' three phases in a row, as steps of a run. */
  lemma UpsertIsThreeSteps(env: Env, s: Ctl, u: Upsert)
    requires s.phase == Idle
    ensures Run(env, s, [UpsertBegin(u), UpsertWrite, UpsertFinish]) == DoUpsertFinish(DoUpsertWrite(DoUpsertBegin(env, s, u)))
    ensures Run(env, s, [UpsertBegin(u), UpsertWrite, UpsertFinish]).phase == Idle
  {
    hide DoUpsertFinish, DoUpsertWrite, DoUpsertBegin;
    var steps := [UpsertBegin(u), UpsertWrite, UpsertFinish];
    assert steps[..2] == [UpsertBegin(u), UpsertWrite] && steps[..2][..1] == [UpsertBegin(u)] && steps[..2][..1][..0] == [];
    assert Run(env, s, []) == s;
    assert Run(env, s, steps[..2][..1]) == DoUpsertBegin(env, s, u);
    assert Run(env, s, steps[..2]) == DoUpsertWrite(DoUpsertBegin(env, s, u));
    UpsertReturnsToIdle(env, s, u);
  }

  /**
   What an undisturbed upsert leaves. A spec that does not parse or too long a prompt is refused and
   changes nothing. Otherwise the row is what was asked for, as the database keeps it; it is enabled
   just when it was and nothing sensitive changed, and then in the heap as its new row says, and else
   out of it; and when it was enabled and is not any more, its tokens go, and no others.
   */
  lemma UpsertLeaves(env: Env, s: Ctl, u: Upsert)
    requires s.phase == Idle
    ensures var s' := Run(env, s, [UpsertBegin(u), UpsertWrite, UpsertFinish]);
            var was := u.id in s.rows && s.rows[u.id].enabled;
            var kept := was && ChangedFields(s.rows[u.id].snap, u.next) == [];
            if !env.parses(u.next.cronExpr, u.next.tz) || |u.next.prompt| > 65_536 then s' == s
            else
              && s'.phase == Idle
              && s'.rows == s.rows[u.id := Row(Stored(u.next), kept, u.pauseAfter, u.failures)]
              && s'.heap == (if kept then s.heap[u.id := EntryOf(u.next)] else s.heap - {u.id})
              && s'.tokens == map t | t in s.tokens && !(was && !kept && s.tokens[t].cronId == u.id) :: s.tokens[t]
  {
    UpsertIsThreeSteps(env, s, u);
    hide Run, ChangedFields, Stored, EntryOf;
  }

  lemma UpsertReturnsToIdle(env: Env, s: Ctl, u: Upsert)
    requires s.phase == Idle
    ensures DoUpsertFinish(DoUpsertWrite(DoUpsertBegin(env, s, u))).phase == Idle
  {
    hide Decide, Parses, WithoutCron;
  }
}
