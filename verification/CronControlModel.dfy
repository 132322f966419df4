/**
 The cron control channel as a transition system. Each handler holds the control lock from start
 to end, but the auto-pause of a failing cron does not take it, so an upsert is split where a
 pause can land: between reading the row and writing it, and between writing it and reconciling
 the heap with what it reads back. The other handlers write a row at most once, so a pause
 during one is the same as a pause before or after it.
 */
module CronControlModel {
  import opened Wrappers
  import opened CronSecurity
  import opened Confirmations

  /** The fingerprint's hash function and the cron expression parser are the libraries' own: any functions. */
  datatype Env = Env(hash: seq<byte> -> Bits64, parses: (Text, Text) -> bool)

  /** A stored cron: its sensitive fields, whether it is enabled, and what auto-pause looks at. */
  datatype Row = Row(snap: Snapshot, enabled: bool, pauseAfter: int, failures: int)

  datatype Mode = Skip | Replay | Coalesce

  datatype HeapEntry = HeapEntry(cronExpr: Text, tz: Text, mode: Mode)

  const SKIP: Text := [115, 107, 105, 112]
  const REPLAY: Text := [114, 101, 112, 108, 97, 121]

  function CatchupModeOf(s: Text): Mode {
    if s == SKIP then Skip else if s == REPLAY then Replay else Coalesce
  }

  /** A budget as the database's REAL column keeps it: a NaN as no budget, and of the two zeros only the positive one. */
  function StoredBudget(b: Option<Double>): Option<Double> {
    if b.Some? && b.value.NaN() then None
    else if b.Some? && b.value.Zero() then Some(Double(0))
    else b
  }

  function Stored(s: Snapshot): Snapshot {
    s.(budget := StoredBudget(s.budget))
  }

  function EntryOf(s: Snapshot): HeapEntry {
    HeapEntry(s.cronExpr, s.tz, CatchupModeOf(s.catchupMode))
  }

  datatype Upsert = Upsert(id: string, next: Snapshot, pauseAfter: int, failures: int)

  /** Where the holder of the control lock is: nobody, an upsert that has read the row, or one that has written it. */
  datatype Phase = Idle | Deciding(u: Upsert, seen: Option<Row>) | Reconciling(u: Upsert, reconfirm: bool)

  datatype Ctl = Ctl(rows: map<string, Row>, heap: map<string, HeapEntry>, tokens: Tokens, phase: Phase)

  datatype Step =
    | UpsertBegin(u: Upsert)
    | UpsertWrite
    | UpsertFinish
    | SetEnabled(id: string, enabled: bool, token: Option<string>, summary: Summary, now: nat, random: Option<string>)
    | Delete(id: string)
    | CountRun(id: string, failed: bool)
    | AutoPause(id: string)

  function Fingerprint(env: Env, s: Snapshot): Bits64 {
    env.hash(Stream(s))
  }

  predicate Parses(env: Env, s: Snapshot) {
    env.parses(s.cronExpr, s.tz)
  }

  /** A spec that does not parse is refused before the lock is taken. */
  function DoUpsertBegin(env: Env, s: Ctl, u: Upsert): Ctl {
    if s.phase != Idle || !Parses(env, u.next) then s
    else s.(phase := Deciding(u, if u.id in s.rows then Some(s.rows[u.id]) else None))
  }

  function Decide(u: Upsert, seen: Option<Row>): Result<Decision, SecurityError> {
    DecideUpsert(seen.Some? && seen.value.enabled, if seen.Some? then Some(seen.value.snap) else None, u.next)
  }

  /** The whole row is overwritten, the enabled flag with what was decided from the row as read. */
  function DoUpsertWrite(s: Ctl): Ctl {
    if !s.phase.Deciding? then s
    else
      var u := s.phase.u;
      match Decide(u, s.phase.seen)
      case Err(_) => s.(phase := Idle)
      case Ok(d) =>
        s.(rows := s.rows[u.id := Row(Stored(u.next), d.enabledAfterUpsert, u.pauseAfter, u.failures)],
           phase := Reconciling(u, d.requiresReconfirmation))
  }

  /** The heap follows the row as read back; tokens go when a sensitive edit disabled the cron. */
  function DoUpsertFinish(s: Ctl): Ctl {
    if !s.phase.Reconciling? || s.phase.u.id !in s.rows then s
    else
      var u := s.phase.u;
      s.(heap := if s.rows[u.id].enabled then s.heap[u.id := EntryOf(u.next)] else s.heap - {u.id},
         tokens := if s.phase.reconfirm then WithoutCron(s.tokens, u.id) else s.tokens,
         phase := Idle)
  }

  function PendingFor(env: Env, s: Ctl, id: string, summary: Summary, now: nat): Pending
    requires id in s.rows
  {
    Pending(id, now + CONFIRMATION_TOKEN_TTL, summary, Fingerprint(env, s.rows[id].snap))
  }

  function DoDisable(s: Ctl, id: string): Ctl
    requires id in s.rows
  {
    s.(tokens := WithoutCron(s.tokens, id), rows := s.rows[id := s.rows[id].(enabled := false)], heap := s.heap - {id})
  }

  /** A confirmed enable still needs a spec that parses; the token is spent either way. */
  function DoConfirm(env: Env, s: Ctl, id: string, t: string, now: nat): Ctl
    requires id in s.rows
  {
    var fp := Fingerprint(env, s.rows[id].snap);
    var spent := s.(tokens := Presented(s.tokens, id, t, fp, now));
    if Refusal(s.tokens, id, t, fp, now).None? && Parses(env, s.rows[id].snap) then
      spent.(rows := s.rows[id := s.rows[id].(enabled := true)], heap := s.heap[id := EntryOf(s.rows[id].snap)])
    else spent
  }

  function DoSetEnabled(env: Env, s: Ctl, id: string, enabled: bool, token: Option<string>, summary: Summary, now: nat,
                        random: Option<string>): Ctl {
    if s.phase != Idle || id !in s.rows then s
    else if !enabled then DoDisable(s, id)
    else if token.None? then s.(tokens := Issued(s.tokens, PendingFor(env, s, id, summary, now), now, random))
    else DoConfirm(env, s, id, token.value, now)
  }

  function DoDelete(s: Ctl, id: string): Ctl {
    if s.phase != Idle then s
    else s.(tokens := WithoutCron(s.tokens, id), rows := s.rows - {id}, heap := s.heap - {id})
  }

  function DoCountRun(s: Ctl, id: string, failed: bool): Ctl {
    if id !in s.rows then s
    else s.(rows := s.rows[id := s.rows[id].(failures := if failed then s.rows[id].failures + 1 else 0)])
  }

  /** One conditional update of the row, outside the control lock; the heap is not touched. */
  function DoAutoPause(s: Ctl, id: string): Ctl {
    if id in s.rows && s.rows[id].pauseAfter > 0 && s.rows[id].failures >= s.rows[id].pauseAfter then
      s.(rows := s.rows[id := s.rows[id].(enabled := false)])
    else s
  }

  function Next(env: Env, s: Ctl, step: Step): Ctl {
    match step
    case UpsertBegin(u) => DoUpsertBegin(env, s, u)
    case UpsertWrite => DoUpsertWrite(s)
    case UpsertFinish => DoUpsertFinish(s)
    case SetEnabled(id, enabled, token, summary, now, random) => DoSetEnabled(env, s, id, enabled, token, summary, now, random)
    case Delete(id) => DoDelete(s, id)
    case CountRun(id, failed) => DoCountRun(s, id, failed)
    case AutoPause(id) => DoAutoPause(s, id)
  }

  function Run(env: Env, s: Ctl, steps: seq<Step>): Ctl {
    if steps == [] then s else Next(env, Run(env, s, steps[..|steps| - 1]), steps[|steps| - 1])
  }

  /** The state just before step `k`. */
  function At(env: Env, s: Ctl, steps: seq<Step>, k: nat): Ctl
    requires k <= |steps|
  {
    Run(env, s, steps[..k])
  }

  predicate EnabledIn(s: Ctl, id: string) {
    id in s.rows && s.rows[id].enabled
  }

  /** The heap seeded from stored rows: the enabled ones that parse. */
  function Seeded(env: Env, rows: map<string, Row>): map<string, HeapEntry> {
    map id | id in rows && rows[id].enabled && Parses(env, rows[id].snap) :: EntryOf(rows[id].snap)
  }

  /** The daemon's start: any rows, no tokens, and the seeded heap. */
  predicate Start(env: Env, s: Ctl) {
    s.phase == Idle && s.tokens == map[] && s.heap == Seeded(env, s.rows)
  }

  /** Every row is as the database keeps it. */
  predicate RowsStored(rows: map<string, Row>) {
    forall id :: id in rows ==> Stored(rows[id].snap) == rows[id].snap
  }
}
