/**
 The single-writer lock of a session. Attaching subscribes first and claims the input in a second
 step; writing checks the holder under the lock and writes to the terminal after letting it go.
 */
module SingleWriter {
  import opened Wrappers

  type SubId = nat

  datatype WriteError = NotAttached | WriterLocked(holder: SubId)

  /** `claiming`: subscriptions whose attach asked for the input and has not claimed it yet; `writing`: accepted writes not yet made. */
  datatype Session = Session(holder: Option<SubId>, nextSub: SubId, claiming: set<SubId>, writing: multiset<SubId>)

  const SPAWNED: Session := Session(None, 1, {}, multiset{})

  datatype Step =
    | Subscribe(acquireInput: bool)
    | Claim(sub: SubId)
    | Detach(sub: SubId)
    | CheckWrite(sub: SubId)
    | MakeWrite(sub: SubId)

  /** The answer of the ownership check. */
  function Refusal(holder: Option<SubId>, sub: SubId): Option<WriteError> {
    match holder
    case None => Some(NotAttached)
    case Some(h) => if h != sub then Some(WriterLocked(h)) else None
  }

  function Next(s: Session, step: Step): Session {
    match step
    case Subscribe(acquire) =>
      s.(nextSub := s.nextSub + 1, claiming := if acquire then s.claiming + {s.nextSub} else s.claiming)
    case Claim(sub) =>
      if sub !in s.claiming then s
      else s.(claiming := s.claiming - {sub}, holder := if s.holder.None? then Some(sub) else s.holder)
    case Detach(sub) => if s.holder == Some(sub) then s.(holder := None) else s
    case CheckWrite(sub) => if Refusal(s.holder, sub).None? then s.(writing := s.writing + multiset{sub}) else s
    case MakeWrite(sub) => s.(writing := s.writing - multiset{sub})
  }

  function Run(steps: seq<Step>): Session {
    if steps == [] then SPAWNED else Next(Run(steps[..|steps| - 1]), steps[|steps| - 1])
  }

  /** The state just before step `k`. */
  function At(steps: seq<Step>, k: nat): Session
    requires k <= |steps|
  {
    Run(steps[..k])
  }

  lemma AtNext(steps: seq<Step>, k: nat)
    requires k < |steps|
    ensures At(steps, k + 1) == Next(At(steps, k), steps[k])
  {
    assert steps[..k + 1][..k] == steps[..k];
    hide Next;
  }

  /** The holder moves from none to a claimant and from a holder to none by that holder's own detach; never otherwise. */
  lemma HolderMoves(s: Session, step: Step)
    ensures Next(s, step).holder != s.holder <==>
              || (step.Claim? && s.holder == None && step.sub in s.claiming)
              || (step.Detach? && s.holder == Some(step.sub))
    ensures Next(s, step).holder != s.holder ==>
              if step.Claim? then Next(s, step).holder == Some(step.sub) else Next(s, step).holder == None
  {
  }

  predicate Accepted(steps: seq<Step>, k: nat, sub: SubId) {
    k < |steps| && steps[k] == CheckWrite(sub) && Refusal(At(steps, k).holder, sub).None?
  }

  predicate Releases(steps: seq<Step>, k: nat, sub: SubId) {
    k < |steps| && steps[k] == Detach(sub) && At(steps, k).holder == Some(sub)
  }

  /** A holder that no longer holds has detached in between. */
  lemma {:induction false} LosesOnlyByDetach(steps: seq<Step>, i: nat, j: nat, sub: SubId) returns (k: nat)
    requires i <= j <= |steps|
    requires At(steps, i).holder == Some(sub) && At(steps, j).holder != Some(sub)
    ensures i <= k < j && Releases(steps, k, sub)
    decreases j - i
  {
    hide Run;
    AtNext(steps, j - 1);
    HolderMoves(At(steps, j - 1), steps[j - 1]);
    hide Next;
    if At(steps, j - 1).holder == Some(sub) {
      k := j - 1;
    } else {
      k := LosesOnlyByDetach(steps, i, j - 1, sub);
    }
  }

  /** Between two accepted writes of different subscribers lies a detach of the first that released the lock. */
  lemma DetachBetweenWriters(steps: seq<Step>, i: nat, j: nat, a: SubId, b: SubId) returns (k: nat)
    requires i < j && a != b && Accepted(steps, i, a) && Accepted(steps, j, b)
    ensures i < k < j && Releases(steps, k, a)
  {
    hide Run;
    k := LosesOnlyByDetach(steps, i, j, a);
  }

  /** Every subscription number in use was handed out, and a holder has nothing left to claim. */
  predicate Ids(s: Session) {
    && (forall c :: c in s.claiming ==> c < s.nextSub)
    && (s.holder.Some? ==> s.holder.value < s.nextSub && s.holder.value !in s.claiming)
  }

  lemma StepKeepsIds(s: Session, step: Step)
    requires Ids(s)
    ensures Ids(Next(s, step)) && s.nextSub <= Next(s, step).nextSub
    ensures forall c :: c < s.nextSub && c !in s.claiming ==> c !in Next(s, step).claiming
  {
  }

  lemma {:induction false} RunKeepsIds(steps: seq<Step>)
    ensures Ids(Run(steps))
  {
    if |steps| == 0 {
    } else {
      RunKeepsIds(steps[..|steps| - 1]);
      StepKeepsIds(Run(steps[..|steps| - 1]), steps[|steps| - 1]);
      hide Ids, Next;
    }
  }

  /** Once a subscription has held the lock it never claims again. */
  lemma {:induction false} NeverReclaims(steps: seq<Step>, i: nat, j: nat, sub: SubId)
    requires i <= j <= |steps| && At(steps, i).holder == Some(sub)
    ensures sub < At(steps, j).nextSub && sub !in At(steps, j).claiming
    decreases j - i
  {
    hide Run;
    if i == j {
      RunKeepsIds(steps[..i]);
    } else {
      NeverReclaims(steps, i, j - 1, sub);
      RunKeepsIds(steps[..j - 1]);
      AtNext(steps, j - 1);
      StepKeepsIds(At(steps, j - 1), steps[j - 1]);
      hide Next, Ids;
    }
  }

  /** A lost lock never comes back to the same subscription. */
  lemma {:induction false} NeverRegains(steps: seq<Step>, i: nat, j: nat, k: nat, sub: SubId)
    requires i <= j <= k <= |steps|
    requires At(steps, i).holder == Some(sub) && At(steps, j).holder != Some(sub)
    ensures At(steps, k).holder != Some(sub)
    decreases k - j
  {
    hide Run;
    if j < k {
      NeverRegains(steps, i, j, k - 1, sub);
      NeverReclaims(steps, i, k - 1, sub);
      AtNext(steps, k - 1);
      HolderMoves(At(steps, k - 1), steps[k - 1]);
      hide Next;
    }
  }

  /** One tenure each: no other subscriber's write is ever accepted between two accepted writes of the same one. */
  lemma TenuresDoNotInterleave(steps: seq<Step>, i: nat, j: nat, k: nat, a: SubId, b: SubId)
    requires i < j < k && Accepted(steps, i, a) && Accepted(steps, j, b) && Accepted(steps, k, a)
    ensures a == b
  {
    hide Run;
    if a != b {
      NeverRegains(steps, i, j, k, a);
    }
  }

  /** An accepted write made at step `k` is made by the holder exactly when its subscriber did not release the lock since the check. */
  lemma WriteIsHeldIff(steps: seq<Step>, i: nat, k: nat, sub: SubId)
    requires i < k <= |steps| && Accepted(steps, i, sub)
    ensures At(steps, k).holder == Some(sub) <==> !exists j :: i < j < k && Releases(steps, j, sub)
  {
    hide Run;
    if At(steps, k).holder != Some(sub) {
      var j := LosesOnlyByDetach(steps, i, k, sub);
      assert j != i;
    } else if exists j :: i < j < k && Releases(steps, j, sub) {
      var j :| i < j < k && Releases(steps, j, sub);
      AtNext(steps, j);
      NeverRegains(steps, i, j + 1, k, sub);
    }
  }

  /** The check is not the write: bytes accepted from one subscriber can reach the terminal after the next one's. */
  lemma WriteCanTrail()
    ensures var steps := [Subscribe(true), Claim(1), CheckWrite(1), Detach(1), Subscribe(true), Claim(2), CheckWrite(2), MakeWrite(2), MakeWrite(1)];
            Accepted(steps, 2, 1) && Accepted(steps, 6, 2)
            && At(steps, 8).holder == Some(2) && At(steps, 8).writing == multiset{1}
  {
    var steps := [Subscribe(true), Claim(1), CheckWrite(1), Detach(1), Subscribe(true), Claim(2), CheckWrite(2), MakeWrite(2), MakeWrite(1)];
    assert steps[..0] == [];
    AtNext(steps, 0);
    AtNext(steps, 1);
    assert At(steps, 2) == Session(Some(1), 2, {}, multiset{});
    AtNext(steps, 2);
    AtNext(steps, 3);
    assert At(steps, 4) == Session(None, 2, {}, multiset{1});
    AtNext(steps, 4);
    AtNext(steps, 5);
    assert At(steps, 6) == Session(Some(2), 3, {}, multiset{1});
    AtNext(steps, 6);
    AtNext(steps, 7);
    hide Run;
  }

  // The manager's methods.

  class SessionRuntime {
    var writerHolder: Option<SubId>
    var nextSub: SubId
    var terminal: seq<(SubId, seq<byte>)>

    constructor ()
      ensures View() == SPAWNED && terminal == []
    {
      writerHolder, nextSub, terminal := None, 1, [];
    }

    /** The session between calls: no attach and no write is half done. */
    ghost function View(): Session
      reads this
    {
      Session(writerHolder, nextSub, {}, multiset{})
    }

    /** Attaching always succeeds; the input is granted when it is free. */
    method Attach(acquireInput: bool) returns (sub: SubId, inputAcquired: bool)
      modifies `writerHolder, `nextSub
      ensures sub == old(nextSub)
      ensures View() == if acquireInput then Next(Next(old(View()), Subscribe(true)), Claim(sub)) else Next(old(View()), Subscribe(false))
      ensures inputAcquired <==> acquireInput && old(writerHolder) == None
      ensures writerHolder == if inputAcquired then Some(sub) else old(writerHolder)
    {
      sub := nextSub;
      nextSub := nextSub + 1;
      inputAcquired := false;
      assert {sub} - {sub} == {} && {} + {sub} == {sub};
      if acquireInput && writerHolder.None? {
        writerHolder := Some(sub);
        inputAcquired := true;
      }
    }

    /** Releases the lock if this subscriber holds it; idempotent. */
    method Release(sub: SubId)
      modifies `writerHolder
      ensures View() == Next(old(View()), Detach(sub))
      ensures old(writerHolder) == Some(sub) <==> old(writerHolder) != writerHolder
    {
      if writerHolder == Some(sub) {
        writerHolder := None;
      }
    }

    /** A write by the holder reaches the terminal; any other is refused and changes nothing. */
    method Write(sub: SubId, data: seq<byte>) returns (r: Option<WriteError>)
      modifies `terminal
      ensures View() == Next(Next(old(View()), CheckWrite(sub)), MakeWrite(sub))
      ensures match r
              case None => writerHolder == Some(sub)
              case Some(NotAttached) => writerHolder == None
              case Some(WriterLocked(h)) => writerHolder == Some(h) && h != sub
      ensures terminal == if writerHolder == Some(sub) then old(terminal) + [(sub, data)] else old(terminal)
    {
      if writerHolder.None? {
        return Some(NotAttached);
      }
      if writerHolder.value != sub {
        return Some(WriterLocked(writerHolder.value));
      }
      terminal := terminal + [(sub, data)];
      return None;
    }
  }
}
