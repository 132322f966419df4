/** The single-use confirmation tokens of the two-step enable. */
module Confirmations {
  import opened Wrappers
  import opened CronSecurity

  /** Five minutes, in nanoseconds of a monotonic clock. */
  const CONFIRMATION_TOKEN_TTL: nat := 300_000_000_000

  datatype Summary = Summary(nextFireAt: Option<string>, budget: Option<string>, promptPreview: string)

  datatype Pending = Pending(cronId: string, expiresAt: nat, summary: Summary, fingerprint: Bits64)

  type Tokens = map<string, Pending>

  datatype Gate =
    | RequiresConfirmation(token: string, summary: Summary)
    | Confirmed(summary: Summary)

  function Unexpired(m: Tokens, now: nat): Tokens {
    map t | t in m && m[t].expiresAt > now :: m[t]
  }

  function WithoutCron(m: Tokens, cronId: string): Tokens {
    map t | t in m && m[t].cronId != cronId :: m[t]
  }

  /** The tokens after issuing one; `random` is what the system's random source gave. */
  function Issued(m: Tokens, p: Pending, now: nat, random: Option<string>): Tokens {
    if random.Some? then Unexpired(m, now)[random.value := p] else Unexpired(m, now)
  }

  /** Why a presented token is refused, if it is. */
  function Refusal(m: Tokens, cronId: string, t: string, fingerprint: Bits64, now: nat): Option<SecurityError> {
    if t !in m then Some(InvalidConfirmationToken)
    else if m[t].expiresAt <= now then Some(ExpiredConfirmationToken)
    else if m[t].cronId != cronId then Some(TokenCronMismatch)
    else if m[t].fingerprint != fingerprint then Some(SensitiveSnapshotChanged)
    else None
  }

  /** The tokens after presenting one: it is spent whatever the answer, and a stale snapshot spends all of the cron's. */
  function Presented(m: Tokens, cronId: string, t: string, fingerprint: Bits64, now: nat): Tokens {
    if t !in m then Unexpired(m, now)
    else if Refusal(m, cronId, t, fingerprint, now) == Some(SensitiveSnapshotChanged) then WithoutCron(m - {t}, cronId)
    else m - {t}
  }

  class ConfirmationTokens {
    var pending: Tokens

    constructor ()
      ensures pending == map[]
    {
      pending := map[];
    }

    method PruneExpired(now: nat)
      modifies this
      ensures pending == Unexpired(old(pending), now)
    {
      pending := map t | t in pending && pending[t].expiresAt > now :: pending[t];
    }

    method Issue(cronId: string, summary: Summary, fingerprint: Bits64, now: nat, random: Option<string>)
      returns (r: Result<string, SecurityError>)
      modifies this
      ensures r == (if random.Some? then Ok(random.value) else Err(RandomToken))
      ensures pending == Issued(old(pending), Pending(cronId, now + CONFIRMATION_TOKEN_TTL, summary, fingerprint), now, random)
    {
      PruneExpired(now);
      if random.Some? {
        pending := pending[random.value := Pending(cronId, now + CONFIRMATION_TOKEN_TTL, summary, fingerprint)];
      }
      r := if random.Some? then Ok(random.value) else Err(RandomToken);
    }

    /** The two-step gate: without a token one is issued; with one it is spent, and confirms only what it was issued for. */
    method RequireOrConfirm(cronId: string, token: Option<string>, summary: Summary, fingerprint: Bits64, now: nat,
                            random: Option<string>)
      returns (r: Result<Gate, SecurityError>)
      modifies this
      ensures token.None? ==>
                && pending == Issued(old(pending), Pending(cronId, now + CONFIRMATION_TOKEN_TTL, summary, fingerprint), now, random)
                && r == (if random.Some? then Ok(RequiresConfirmation(random.value, summary)) else Err(RandomToken))
      ensures token.Some? ==> pending == Presented(old(pending), cronId, token.value, fingerprint, now)
      ensures token.Some? ==>
                match Refusal(old(pending), cronId, token.value, fingerprint, now)
                case Some(why) => r == Err(why)
                case None => token.value in old(pending) && r == Ok(Confirmed(old(pending)[token.value].summary))
    {
      if token.None? {
        PruneExpired(now);
        assert Unexpired(pending, now) == pending;
        var issued := Issue(cronId, summary, fingerprint, now, random);
        return if issued.Ok? then Ok(RequiresConfirmation(issued.value, summary)) else Err(issued.error);
      }
      if token.value !in pending {
        PruneExpired(now);
        return Err(InvalidConfirmationToken);
      }
      var found := pending[token.value];
      pending := pending - {token.value};
      if found.expiresAt <= now {
        return Err(ExpiredConfirmationToken);
      }
      if found.cronId != cronId {
        return Err(TokenCronMismatch);
      }
      if found.fingerprint != fingerprint {
        pending := map t | t in pending && pending[t].cronId != cronId :: pending[t];
        return Err(SensitiveSnapshotChanged);
      }
      return Ok(Confirmed(found.summary));
    }

    method InvalidateCron(cronId: string) returns (removed: nat)
      modifies this
      ensures pending == WithoutCron(old(pending), cronId)
      ensures removed == |set t | t in old(pending) && old(pending)[t].cronId == cronId|
    {
      var gone := set t | t in pending && pending[t].cronId == cronId;
      ghost var before := pending;
      removed := |pending|;
      pending := map t | t in pending && pending[t].cronId != cronId :: pending[t];
      RemovedCount(before, pending, gone);
      removed := removed - |pending|;
    }
  }

  lemma RemovedCount(before: Tokens, after: Tokens, gone: set<string>)
    requires before.Keys == after.Keys + gone && after.Keys !! gone
    ensures |before| == |after| + |gone|
  {
    assert |before.Keys| == |before| && |after.Keys| == |after|;
    assert |after.Keys + gone| == |after.Keys| + |gone|;
  }

  /** A presented token is spent: it can confirm nothing again. */
  lemma TokenIsSpent(m: Tokens, cronId: string, t: string, fingerprint: Bits64, now: nat)
    ensures t !in Presented(m, cronId, t, fingerprint, now)
    ensures forall c: string, fp: Bits64, n: nat ::
              Refusal(Presented(m, cronId, t, fingerprint, now), c, t, fp, n) == Some(InvalidConfirmationToken)
  {
  }
}
