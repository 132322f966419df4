/**
 The scheduler's entry table: a map of entries and a priority queue of fire times whose outdated
 nodes are dropped lazily, by version, when they reach the front.
 */
module EntryTables {
  import opened Wrappers

  /** Cron ids by their rank in string order. */
  type CronId = nat

  datatype Node = Node(fireAt: int, id: CronId, version: nat)

  datatype Entry = Entry(nextFireAt: Option<int>, version: nat)

  /** By time, then id, then version. */
  predicate Before(a: Node, b: Node) {
    a.fireAt < b.fireAt || (a.fireAt == b.fireAt && (a.id < b.id || (a.id == b.id && a.version <= b.version)))
  }

  predicate Sorted(heap: seq<Node>) {
    heap == [] || ((forall n :: n in heap[1..] ==> Before(heap[0], n)) && Sorted(heap[1..]))
  }

  /** The standard library's heap, as its contents in order. */
  function Push(heap: seq<Node>, n: Node): seq<Node> {
    if heap == [] then [n]
    else if Before(n, heap[0]) then [n] + heap
    else [heap[0]] + Push(heap[1..], n)
  }

  lemma {:induction false} PushMembers(heap: seq<Node>, n: Node, m: Node)
    ensures m in Push(heap, n) <==> m in heap || m == n
  {
    hide Before;
    if heap != [] {
      assert heap == [heap[0]] + heap[1..];
      PushMembers(heap[1..], n, m);
    }
  }

  lemma {:induction false} PushSorted(heap: seq<Node>, n: Node)
    requires Sorted(heap)
    ensures Sorted(Push(heap, n))
  {
    if heap != [] {
      var r := Push(heap, n);
      if Before(n, heap[0]) {
        assert r[1..] == heap && heap == [heap[0]] + heap[1..];
        forall m | m in heap ensures Before(n, m) {
          assert m == heap[0] || m in heap[1..];
        }
      } else {
        assert r[1..] == Push(heap[1..], n);
        PushSorted(heap[1..], n);
        forall m | m in r[1..] ensures Before(heap[0], m) {
          PushMembers(heap[1..], n, m);
        }
        hide Before;
      }
    }
  }

  /** The front of a sorted queue is its least. */
  lemma FrontIsLeast(heap: seq<Node>, n: Node)
    requires Sorted(heap) && n in heap
    ensures n == heap[0] || Before(heap[0], n)
  {
    assert heap == [heap[0]] + heap[1..];
  }

  lemma {:induction false} PushLast(heap: seq<Node>, n: Node)
    requires forall m :: m in heap ==> !Before(n, m)
    ensures Push(heap, n) == heap + [n]
  {
    hide Before;
    if heap != [] {
      PushLast(heap[1..], n);
      assert heap == [heap[0]] + heap[1..];
    }
  }

  datatype Table = Table(entries: map<CronId, Entry>, heap: seq<Node>)

  const EMPTY: Table := Table(map[], [])

  /** A node is acted on when its entry exists in its version. */
  predicate Live(t: Table, n: Node) {
    n.id in t.entries && t.entries[n.id].version == n.version
  }

  function Put(t: Table, id: CronId, next: Option<int>, version: nat): Table {
    Table(t.entries[id := Entry(next, version)],
          if next.Some? then Push(t.heap, Node(next.value, id, version)) else t.heap)
  }

  /** An entry that was deleted starts again at version one. */
  function Upsert(t: Table, id: CronId, next: Option<int>): Table {
    Put(t, id, next, if id in t.entries then t.entries[id].version + 1 else 1)
  }

  function Delete(t: Table, id: CronId): Table {
    t.(entries := t.entries - {id})
  }

  function RefreshNextFire(t: Table, id: CronId, next: Option<int>): Table {
    if id in t.entries then Put(t, id, next, t.entries[id].version + 1) else t
  }

  function DropStale(t: Table): Table
    decreases |t.heap|
  {
    if t.heap == [] || Live(t, t.heap[0]) then t else DropStale(t.(heap := t.heap[1..]))
  }

  function Front(t: Table): Option<Node> {
    if t.heap == [] then None else Some(t.heap[0])
  }

  /** The earliest fire, after stale nodes are dropped. */
  function PeekNext(t: Table): Option<Node> {
    Front(DropStale(t))
  }

  /** The loop's handling of a due fire: peek, pop it if due, and rewrite its entry's next fire. */
  function FireDue(t: Table, now: int, next: Option<int>): Table {
    var p := DropStale(t);
    if p.heap != [] && p.heap[0].fireAt <= now then RefreshNextFire(p.(heap := p.heap[1..]), p.heap[0].id, next) else p
  }

  datatype Step =
    | DoUpsert(id: CronId, next: Option<int>)
    | DoDelete(id: CronId)
    | DoRefresh(id: CronId, next: Option<int>)
    | DoPeek
    | DoFire(now: int, next: Option<int>)

  function Next(t: Table, step: Step): Table {
    match step
    case DoUpsert(id, next) => Upsert(t, id, next)
    case DoDelete(id) => Delete(t, id)
    case DoRefresh(id, next) => RefreshNextFire(t, id, next)
    case DoPeek => DropStale(t)
    case DoFire(now, next) => FireDue(t, now, next)
  }

  function Run(t: Table, steps: seq<Step>): Table {
    if steps == [] then t else Next(Run(t, steps[..|steps| - 1]), steps[|steps| - 1])
  }

  // What the table promises.

  /** The node is not from its entry's future, and in its version not ahead of the entry's fire time. */
  predicate NodeOk(t: Table, n: Node) {
    n.id in t.entries ==>
      && n.version <= t.entries[n.id].version
      && (n.version == t.entries[n.id].version ==> NotAhead(n, t.entries[n.id].nextFireAt))
  }

  predicate NotAhead(n: Node, next: Option<int>) {
    next.Some? && next.value <= n.fireAt
  }

  predicate EntryOk(t: Table, id: CronId) {
    id in t.entries && t.entries[id].nextFireAt.Some? ==>
      Node(t.entries[id].nextFireAt.value, id, t.entries[id].version) in t.heap
  }

  ghost predicate Coherent(t: Table) {
    && Sorted(t.heap)
    && (forall n :: n in t.heap ==> NodeOk(t, n))
    && (forall id :: id in t.entries ==> EntryOk(t, id))
  }

  /** The answer a simple scan of the entries would give: the least of the scheduled fires. */
  ghost predicate IsEarliest(t: Table, r: Option<Node>) {
    match r
    case None => forall id :: id in t.entries ==> t.entries[id].nextFireAt.None?
    case Some(n) =>
      && n.id in t.entries && t.entries[n.id] == Entry(Some(n.fireAt), n.version)
      && forall id :: id in t.entries && t.entries[id].nextFireAt.Some? ==>
                        Before(n, Node(t.entries[id].nextFireAt.value, id, t.entries[id].version))
  }

  lemma {:induction false} DropKeepsCoherent(t: Table)
    requires Coherent(t)
    ensures Coherent(DropStale(t)) && DropStale(t).entries == t.entries
    decreases |t.heap|
  {
    if t.heap != [] && !Live(t, t.heap[0]) {
      DropOneKeepsCoherent(t);
      DropKeepsCoherent(t.(heap := t.heap[1..]));
    }
    hide Coherent;
  }

  lemma DropOneKeepsCoherent(t: Table)
    requires Coherent(t) && t.heap != [] && !Live(t, t.heap[0])
    ensures Coherent(t.(heap := t.heap[1..]))
  {
    var r := t.(heap := t.heap[1..]);
    assert t.heap == [t.heap[0]] + t.heap[1..];
    forall n | n in r.heap ensures NodeOk(r, n) {
      assert NodeOk(t, n);
    }
    forall id | id in r.entries ensures EntryOk(r, id) {
      assert EntryOk(t, id);
    }
  }

  lemma {:induction false} FrontIsLive(t: Table)
    ensures DropStale(t).heap != [] ==> Live(DropStale(t), DropStale(t).heap[0])
    decreases |t.heap|
  {
    if t.heap != [] && !Live(t, t.heap[0]) {
      FrontIsLive(t.(heap := t.heap[1..]));
    }
  }

  /** The lazy queue answers as the simple scan would, whenever the table is coherent. */
  lemma PeekIsEarliest(t: Table)
    requires Coherent(t)
    ensures IsEarliest(t, PeekNext(t))
  {
    DropKeepsCoherent(t);
    FrontIsLive(t);
    hide DropStale;
    var p := DropStale(t);
    forall id | id in t.entries && t.entries[id].nextFireAt.Some?
      ensures p.heap != [] && Before(p.heap[0], Node(t.entries[id].nextFireAt.value, id, t.entries[id].version))
    {
      assert EntryOk(p, id);
      FrontIsLeast(p.heap, Node(t.entries[id].nextFireAt.value, id, t.entries[id].version));
    }
    if p.heap != [] {
      assert NodeOk(p, p.heap[0]);
      assert EntryOk(p, p.heap[0].id);
    }
  }

  /** Nothing left in the queue for a cron is of a later version than the entry being written, or of its version and ahead of it. */
  predicate NoLeftover(t: Table, id: CronId, next: Option<int>, version: nat) {
    forall n :: n in t.heap && n.id == id ==> n.version <= version && (n.version == version ==> NotAhead(n, next))
  }

  /** Writing an entry keeps the table coherent exactly when no leftover node matches it. */
  lemma PutIsCoherentIff(t: Table, id: CronId, next: Option<int>, version: nat)
    requires Coherent(t)
    ensures Coherent(Put(t, id, next, version)) <==> NoLeftover(t, id, next, version)
  {
    var r := Put(t, id, next, version);
    PutMembers(t, id, next, version);
    hide Push, Sorted;
    if NoLeftover(t, id, next, version) {
      forall n | n in r.heap ensures NodeOk(r, n) {
        if n in t.heap {
          assert NodeOk(t, n);
        }
      }
      forall i | i in r.entries ensures EntryOk(r, i) {
        if i != id {
          assert EntryOk(t, i);
        }
      }
    } else {
      var n :| n in t.heap && n.id == id && !(n.version <= version && (n.version == version ==> NotAhead(n, next)));
      assert n in r.heap && !NodeOk(r, n);
    }
  }

  lemma PutMembers(t: Table, id: CronId, next: Option<int>, version: nat)
    ensures forall n :: n in Put(t, id, next, version).heap <==>
                          n in t.heap || (next.Some? && n == Node(next.value, id, version))
    ensures Sorted(t.heap) ==> Sorted(Put(t, id, next, version).heap)
  {
    if next.Some? {
      var x := Node(next.value, id, version);
      forall n ensures n in Push(t.heap, x) <==> n in t.heap || n == x {
        PushMembers(t.heap, x, n);
      }
      if Sorted(t.heap) {
        PushSorted(t.heap, x);
      }
    }
    hide Push, Sorted;
  }

  /** A rewrite of a present entry never meets a leftover: its new version is above all its nodes. */
  lemma RewriteIsCoherent(t: Table, id: CronId, next: Option<int>)
    requires Coherent(t) && id in t.entries
    ensures Coherent(Put(t, id, next, t.entries[id].version + 1))
  {
    hide Put;
    forall n | n in t.heap && n.id == id ensures n.version < t.entries[id].version + 1 {
      assert NodeOk(t, n);
    }
    PutIsCoherentIff(t, id, next, t.entries[id].version + 1);
    hide Coherent;
  }

  lemma DeleteIsCoherent(t: Table, id: CronId)
    requires Coherent(t)
    ensures Coherent(Delete(t, id))
  {
    var r := Delete(t, id);
    forall n | n in r.heap ensures NodeOk(r, n) {
      assert NodeOk(t, n);
    }
    forall i | i in r.entries ensures EntryOk(r, i) {
      assert EntryOk(t, i);
    }
  }

  /** Popping the front and rewriting its entry, as one. */
  lemma PopAndRewrite(p: Table, next: Option<int>)
    requires Coherent(p) && p.heap != [] && Live(p, p.heap[0])
    ensures Coherent(RefreshNextFire(p.(heap := p.heap[1..]), p.heap[0].id, next))
  {
    var top, rest := p.heap[0], p.heap[1..];
    var id := top.id;
    var v := p.entries[id].version + 1;
    var r := Put(p.(heap := rest), id, next, v);
    assert p.heap == [top] + rest;
    assert Sorted(rest);
    PutMembers(p.(heap := rest), id, next, v);
    hide Push, Sorted, Before;
    assert r == RefreshNextFire(p.(heap := rest), id, next);
    assert r.entries == p.entries[id := Entry(next, v)];
    hide Put, RefreshNextFire;
    forall n | n in r.heap ensures NodeOk(r, n) {
      if n in rest {
        assert n in p.heap && NodeOk(p, n);
      }
    }
    forall i | i in r.entries ensures EntryOk(r, i) {
      if i != id {
        assert EntryOk(p, i);
      }
    }
  }

  lemma FireIsCoherent(t: Table, now: int, next: Option<int>)
    requires Coherent(t)
    ensures Coherent(FireDue(t, now, next))
  {
    DropKeepsCoherent(t);
    FrontIsLive(t);
    hide DropStale;
    var p := DropStale(t);
    if p.heap != [] && p.heap[0].fireAt <= now {
      PopAndRewrite(p, next);
    }
    hide Put, Coherent;
  }

  /** The step does not bring a deleted cron back over a node it left behind. */
  predicate NoRevival(t: Table, step: Step) {
    step.DoUpsert? && step.id !in t.entries ==> NoLeftover(t, step.id, step.next, 1)
  }

  /** Every operation keeps the table coherent, save an insertion, which does exactly when it revives no leftover. */
  lemma StepIsCoherentIff(t: Table, step: Step)
    requires Coherent(t)
    ensures Coherent(Next(t, step)) <==> NoRevival(t, step)
  {
    hide Coherent, Put, DropStale, FireDue, NoLeftover;
    match step
    case DoUpsert(id, next) =>
      if id in t.entries { RewriteIsCoherent(t, id, next); } else { PutIsCoherentIff(t, id, next, 1); }
    case DoDelete(id) => DeleteIsCoherent(t, id);
    case DoRefresh(id, next) => if id in t.entries { RewriteIsCoherent(t, id, next); }
    case DoPeek => DropKeepsCoherent(t);
    case DoFire(now, next) => FireIsCoherent(t, now, next);
  }

  /** No step of the continuation revives a leftover. */
  predicate NoRevivals(t: Table, steps: seq<Step>) {
    |steps| == 0 || (NoRevivals(t, steps[..|steps| - 1]) && NoRevival(Run(t, steps[..|steps| - 1]), steps[|steps| - 1]))
  }

  lemma {:induction false} RunIsCoherent(t: Table, steps: seq<Step>)
    requires Coherent(t) && NoRevivals(t, steps)
    ensures Coherent(Run(t, steps))
  {
    hide Coherent, Next, NoRevival;
    if |steps| > 0 {
      RunIsCoherent(t, steps[..|steps| - 1]);
      StepIsCoherentIff(Run(t, steps[..|steps| - 1]), steps[|steps| - 1]);
    }
  }

  /** In every run without a revival, the next fire is the earliest scheduled one. */
  lemma RunPeeksEarliest(steps: seq<Step>)
    requires NoRevivals(EMPTY, steps)
    ensures IsEarliest(Run(EMPTY, steps), PeekNext(Run(EMPTY, steps)))
  {
    EmptyIsCoherent();
    RunIsCoherent(EMPTY, steps);
    PeekIsEarliest(Run(EMPTY, steps));
    hide *;
  }

  lemma EmptyIsCoherent()
    ensures Coherent(EMPTY)
  {
  }

  // The plan: what the table stands for, as a plain map.

  /** When each cron fires next, if it is to. */
  function PlanOf(t: Table): map<CronId, Option<int>> {
    map id | id in t.entries :: t.entries[id].nextFireAt
  }

  /** In the plan, `id` is due first, at `time`: nothing is earlier, and of those at the same time it is the least. */
  ghost predicate DueFirst(plan: map<CronId, Option<int>>, id: CronId, time: int) {
    && id in plan && plan[id] == Some(time)
    && forall j :: j in plan && plan[j].Some? ==> time < plan[j].value || (time == plan[j].value && id <= j)
  }

  /** What a step does to the plan: it writes or removes what it is told to, and a fire rewrites the cron due first, if its time has come. */
  ghost predicate Follows(plan: map<CronId, Option<int>>, plan': map<CronId, Option<int>>, step: Step) {
    match step
    case DoUpsert(id, next) => plan' == plan[id := next]
    case DoDelete(id) => plan' == plan - {id}
    case DoRefresh(id, next) => plan' == if id in plan then plan[id := next] else plan
    case DoPeek => plan' == plan
    case DoFire(now, next) =>
      || (exists id, time :: DueFirst(plan, id, time) && time <= now && plan' == plan[id := next])
      || (plan' == plan && forall id, time :: DueFirst(plan, id, time) ==> time > now)
  }

  /** The earliest entry is the one the plan has due first. */
  lemma EarliestIsDueFirst(t: Table, r: Option<Node>)
    requires IsEarliest(t, r)
    ensures r.Some? ==> DueFirst(PlanOf(t), r.value.id, r.value.fireAt)
    ensures r.None? ==> forall id, time :: !DueFirst(PlanOf(t), id, time)
  {
    if r.Some? {
      var plan := PlanOf(t);
      forall j | j in plan && plan[j].Some?
        ensures r.value.fireAt < plan[j].value || (r.value.fireAt == plan[j].value && r.value.id <= j)
      {
        assert Before(r.value, Node(t.entries[j].nextFireAt.value, j, t.entries[j].version));
      }
    }
  }

  lemma DueFirstIsUnique(plan: map<CronId, Option<int>>, i: CronId, s: int, j: CronId, u: int)
    requires DueFirst(plan, i, s) && DueFirst(plan, j, u)
    ensures i == j && s == u
  {
  }

  lemma FireFollows(t: Table, now: int, next: Option<int>)
    requires Coherent(t)
    ensures Follows(PlanOf(t), PlanOf(FireDue(t, now, next)), DoFire(now, next))
  {
    PeekIsEarliest(t);
    EarliestIsDueFirst(t, PeekNext(t));
    DropKeepsCoherent(t);
    FrontIsLive(t);
    hide DropStale, Coherent, IsEarliest, Push;
    var p := DropStale(t);
    if p.heap != [] && p.heap[0].fireAt <= now {
      var id := p.heap[0].id;
      assert PlanOf(FireDue(t, now, next)) == PlanOf(t)[id := next];
    } else {
      assert PlanOf(FireDue(t, now, next)) == PlanOf(t);
      forall id, time | DueFirst(PlanOf(t), id, time) ensures time > now {
        DueFirstIsUnique(PlanOf(t), id, time, p.heap[0].id, p.heap[0].fireAt);
      }
    }
  }

  lemma StepFollows(t: Table, step: Step)
    requires Coherent(t)
    ensures Follows(PlanOf(t), PlanOf(Next(t, step)), step)
  {
    match step
    case DoFire(now, next) => FireFollows(t, now, next);
    case DoPeek => DropKeepsCoherent(t); hide DropStale, Coherent;
    case _ => hide Push, Coherent;
  }

  /**
   The versioned table refines a plain map. In every run without a revival each step does to the plan
   what it is told: stores the time given, removes the cron, or fires the one due first; and a peek
   answers the one due first, or nothing when nothing is planned.
   */
  lemma RunFollowsPlan(steps: seq<Step>, step: Step)
    requires NoRevivals(EMPTY, steps)
    ensures PlanOf(EMPTY) == map[]
    ensures Follows(PlanOf(Run(EMPTY, steps)), PlanOf(Run(EMPTY, steps + [step])), step)
    ensures match PeekNext(Run(EMPTY, steps))
            case Some(n) => DueFirst(PlanOf(Run(EMPTY, steps)), n.id, n.fireAt)
            case None => forall id :: id in PlanOf(Run(EMPTY, steps)) ==> PlanOf(Run(EMPTY, steps))[id].None?
  {
    EmptyIsCoherent();
    RunIsCoherent(EMPTY, steps);
    var t := Run(EMPTY, steps);
    RunSnoc(EMPTY, steps, step);
    StepFollows(t, step);
    PeekIsEarliest(t);
    EarliestIsDueFirst(t, PeekNext(t));
    hide Run, Next, Coherent, Follows, DueFirst, PeekNext;
  }

  // When the answer can be trusted, on the answers alone.

  /** The continuation inserts no cron that is absent: it only rewrites, deletes, peeks and fires. */
  predicate NoInsertions(t: Table, steps: seq<Step>) {
    |steps| == 0
    || (NoInsertions(t, steps[..|steps| - 1]) && !Inserts(Run(t, steps[..|steps| - 1]), steps[|steps| - 1]))
  }

  predicate Inserts(t: Table, step: Step) {
    step.DoUpsert? && step.id !in t.entries
  }

  /** Now, and after every continuation that inserts nothing more, the next fire is the earliest scheduled one. */
  ghost predicate Safe(t: Table) {
    forall steps :: NoInsertions(t, steps) ==> IsEarliest(Run(t, steps), PeekNext(Run(t, steps)))
  }

  lemma CoherentIsSafe(t: Table)
    requires Coherent(t)
    ensures Safe(t)
  {
    hide Coherent, NoRevivals, NoInsertions, Run, IsEarliest, PeekNext;
    forall steps | NoInsertions(t, steps) ensures IsEarliest(Run(t, steps), PeekNext(Run(t, steps))) {
      InsertionFreeRevivesNothing(t, steps);
      RunIsCoherent(t, steps);
      PeekIsEarliest(Run(t, steps));
    }
  }

  lemma {:induction false} InsertionFreeRevivesNothing(t: Table, steps: seq<Step>)
    requires NoInsertions(t, steps)
    ensures NoRevivals(t, steps)
  {
    hide Run, NoLeftover;
    if steps != [] {
      InsertionFreeRevivesNothing(t, steps[..|steps| - 1]);
    }
  }

  lemma RunSnoc(t: Table, steps: seq<Step>, step: Step)
    ensures Run(t, steps + [step]) == Next(Run(t, steps), step)
  {
    assert (steps + [step])[..|steps|] == steps;
    hide Next;
  }

  lemma NoInsertionsSnoc(t: Table, steps: seq<Step>, step: Step)
    ensures NoInsertions(t, steps + [step]) <==> NoInsertions(t, steps) && !Inserts(Run(t, steps), step)
  {
    assert (steps + [step])[..|steps|] == steps;
    hide Run, Inserts;
  }

  /** Deleting every other cron, one by one: no insertion, and the queue is not touched. */
  lemma {:induction false} Isolate(t: Table, id: CronId, others: set<CronId>) returns (steps: seq<Step>)
    requires id in t.entries && others == t.entries.Keys - {id}
    ensures NoInsertions(t, steps) && Run(t, steps) == Table(map[id := t.entries[id]], t.heap)
    decreases |others|
  {
    if others == {} {
      steps := [];
      assert t.entries == map[id := t.entries[id]];
    } else {
      var o :| o in others;
      var rest := Isolate(Delete(t, o), id, others - {o});
      steps := [DoDelete(o)] + rest;
      RunCons(t, DoDelete(o), rest);
    }
  }

  lemma {:induction false} RunCons(t: Table, step: Step, rest: seq<Step>)
    ensures Run(t, [step] + rest) == Run(Next(t, step), rest)
    ensures NoInsertions(t, [step] + rest) <==> !Inserts(t, step) && NoInsertions(Next(t, step), rest)
    decreases |rest|
  {
    hide Next, Inserts;
    if rest == [] {
      assert [step] + rest == [step] && [step][..0] == [];
      assert Run(t, []) == t;
    } else {
      var n := |rest| - 1;
      RunCons(t, step, rest[..n]);
      assert [step] + rest == ([step] + rest[..n]) + [rest[n]];
      RunSnoc(t, [step] + rest[..n], rest[n]);
      NoInsertionsSnoc(t, [step] + rest[..n], rest[n]);
    }
  }

  /** Rewriting a present cron `k` times to no fire at all: its version rises by `k`, and the queue is not touched. */
  lemma {:induction false} Raise(t: Table, id: CronId, k: nat) returns (steps: seq<Step>)
    requires id in t.entries && k > 0
    ensures NoInsertions(t, steps)
    ensures Run(t, steps) == t.(entries := t.entries[id := Entry(None, t.entries[id].version + k)])
    decreases k
  {
    var u := RefreshNextFire(t, id, None);
    assert u == t.(entries := t.entries[id := Entry(None, t.entries[id].version + 1)]);
    if k == 1 {
      steps := [DoRefresh(id, None)];
      assert steps[..0] == [];
      assert Run(t, []) == t;
    } else {
      var rest := Raise(u, id, k - 1);
      steps := [DoRefresh(id, None)] + rest;
      RunCons(t, DoRefresh(id, None), rest);
      assert u.entries[id := Entry(None, t.entries[id].version + k)] == t.entries[id := Entry(None, t.entries[id].version + k)];
    }
    hide Put, NoInsertions, Run;
  }

  /** A table with one entry whose queue holds a live node ahead of it answers wrongly. */
  lemma LoneLeftoverMisleads(t: Table, n: Node)
    requires Sorted(t.heap) && n in t.heap && t.entries.Keys == {n.id} && t.entries[n.id].version == n.version
    requires !NotAhead(n, t.entries[n.id].nextFireAt)
    ensures !IsEarliest(t, PeekNext(t))
  {
    DropKeepsLive(t, n);
    FrontIsLive(t);
    hide DropStale;
    var p := DropStale(t);
    FrontIsLeast(p.heap, n);
    assert t.entries[n.id] == t.entries[p.heap[0].id];
  }

  lemma {:induction false} DropKeepsLive(t: Table, n: Node)
    requires Sorted(t.heap) && n in t.heap && Live(t, n)
    ensures n in DropStale(t).heap && Sorted(DropStale(t).heap) && DropStale(t).entries == t.entries
    decreases |t.heap|
  {
    if !Live(t, t.heap[0]) {
      assert t.heap == [t.heap[0]] + t.heap[1..];
      DropKeepsLive(t.(heap := t.heap[1..]), n);
    }
    hide Before;
  }

  /** Any leftover that breaks the rule can be made to answer: isolate its cron, and bring it to the leftover's version. */
  lemma LeftoverIsUnsafe(t: Table, n: Node)
    requires Sorted(t.heap) && n in t.heap && n.id in t.entries && !NodeOk(t, n)
    ensures !Safe(t)
  {
    var id := n.id;
    var alone := Isolate(t, id, t.entries.Keys - {id});
    var u := Run(t, alone);
    if n.version == t.entries[id].version {
      LoneLeftoverMisleads(u, n);
    } else {
      var raise := Raise(u, id, n.version - t.entries[id].version);
      LoneLeftoverMisleads(Run(u, raise), n);
      RunAppend(t, alone, raise);
    }
    hide Run, NoInsertions, IsEarliest, PeekNext;
  }

  lemma {:induction false} RunAppend(t: Table, a: seq<Step>, b: seq<Step>)
    ensures Run(t, a + b) == Run(Run(t, a), b)
    ensures NoInsertions(t, a + b) <==> NoInsertions(t, a) && NoInsertions(Run(t, a), b)
    decreases |b|
  {
    hide Next, Inserts;
    if b == [] {
      assert a + b == a;
    } else {
      var n := |b| - 1;
      RunAppend(t, a, b[..n]);
      assert a + b == (a + b[..n]) + [b[n]];
      RunSnoc(t, a + b[..n], b[n]);
      NoInsertionsSnoc(t, a + b[..n], b[n]);
    }
  }

  /**
   An inserted cron can be trusted to fire in time, now and later, exactly when the queue holds
   nothing of it from a later version than the first, and nothing from the first version that is
   ahead of its new time.
   */
  lemma InsertionIsSafeIff(t: Table, id: CronId, next: Option<int>)
    requires Coherent(t) && id !in t.entries
    ensures Safe(Upsert(t, id, next)) <==> NoLeftover(t, id, next, 1)
  {
    PutIsCoherentIff(t, id, next, 1);
    PutMembers(t, id, next, 1);
    var r := Upsert(t, id, next);
    hide Put, Upsert, Safe, Sorted;
    assert r.entries == t.entries[id := Entry(next, 1)] by { UpsertEntries(t, id, next); }
    assert r == Put(t, id, next, 1) by { UpsertEntries(t, id, next); }
    if NoLeftover(t, id, next, 1) {
      CoherentIsSafe(r);
    } else {
      var n :| n in t.heap && n.id == id && !(n.version <= 1 && (n.version == 1 ==> NotAhead(n, next)));
      LeftoverIsUnsafe(r, n);
    }
  }

  lemma UpsertEntries(t: Table, id: CronId, next: Option<int>)
    requires id !in t.entries
    ensures Upsert(t, id, next) == Put(t, id, next, 1) && Put(t, id, next, 1).entries == t.entries[id := Entry(next, 1)]
  {
    hide Push;
  }

  /** Every table the run passes through can be trusted. */
  ghost predicate AlwaysSafe(steps: seq<Step>) {
    Safe(Run(EMPTY, steps)) && (|steps| > 0 ==> AlwaysSafe(steps[..|steps| - 1]))
  }

  /** A whole run can be trusted throughout exactly when none of its insertions revives a leftover. */
  lemma {:induction false} AlwaysSafeIffNoRevivals(steps: seq<Step>)
    ensures AlwaysSafe(steps) <==> NoRevivals(EMPTY, steps)
  {
    hide Safe, Coherent, Next, NoRevival;
    EmptyIsCoherent();
    if |steps| == 0 {
      CoherentIsSafe(EMPTY);
    } else {
      var front, last := steps[..|steps| - 1], steps[|steps| - 1];
      AlwaysSafeIffNoRevivals(front);
      if NoRevivals(EMPTY, front) {
        RunIsCoherent(EMPTY, front);
        StepIsSafeIff(Run(EMPTY, front), last);
      }
    }
  }

  lemma StepIsSafeIff(t: Table, step: Step)
    requires Coherent(t)
    ensures Safe(Next(t, step)) <==> NoRevival(t, step)
  {
    StepIsCoherentIff(t, step);
    hide Safe, Coherent, DropStale, FireDue, NoLeftover, Upsert, Delete, RefreshNextFire;
    if step.DoUpsert? && step.id !in t.entries {
      InsertionIsSafeIff(t, step.id, step.next);
    } else {
      CoherentIsSafe(Next(t, step));
    }
  }

  /** A cron deleted and inserted again behind an earlier one is due at its old time, not its new one. */
  lemma ReinsertedCronFiresEarly() returns (steps: seq<Step>)
    ensures var t := Run(EMPTY, steps);
            2 in t.entries && t.entries[2].nextFireAt == Some(100) && PeekNext(t) == Some(Node(5, 2, 1))
  {
    var a, b, c := Node(3, 1, 1), Node(5, 2, 1), Node(100, 2, 1);
    PushLast([], a);
    PushLast([a], b);
    PushLast([a, b], c);
    hide Push;
    RunSnoc(EMPTY, [], DoUpsert(1, Some(3)));
    var s1 := [DoUpsert(1, Some(3))];
    assert Run(EMPTY, s1) == Table(map[1 := Entry(Some(3), 1)], [a]);
    var s2 := s1 + [DoUpsert(2, Some(5))];
    RunSnoc(EMPTY, s1, DoUpsert(2, Some(5)));
    assert Run(EMPTY, s2) == Table(map[1 := Entry(Some(3), 1), 2 := Entry(Some(5), 1)], [a, b]);
    var s3 := s2 + [DoDelete(2)];
    RunSnoc(EMPTY, s2, DoDelete(2));
    assert Run(EMPTY, s3) == Table(map[1 := Entry(Some(3), 1)], [a, b]);
    var s4 := s3 + [DoPeek];
    RunSnoc(EMPTY, s3, DoPeek);
    var s5 := s4 + [DoUpsert(2, Some(100))];
    RunSnoc(EMPTY, s4, DoUpsert(2, Some(100)));
    assert Run(EMPTY, s5) == Table(map[1 := Entry(Some(3), 1), 2 := Entry(Some(100), 1)], [a, b, c]);
    steps := s5 + [DoDelete(1)];
    RunSnoc(EMPTY, s5, DoDelete(1));
    hide Run;
    var t := Run(EMPTY, steps);
    assert t == Table(map[2 := Entry(Some(100), 1)], [a, b, c]);
    assert t.heap[1..] == [b, c];
  }

  // The table as the source writes it.

  class EntryTable {
    var entries: map<CronId, Entry>
    var heap: seq<Node>

    constructor ()
      ensures View() == EMPTY
    {
      entries, heap := map[], [];
    }

    ghost function View(): Table
      reads this
    {
      Table(entries, heap)
    }

    method UpsertEntry(id: CronId, next: Option<int>) returns (version: nat)
      modifies this
      ensures View() == Upsert(old(View()), id, next)
      ensures id in entries && entries[id] == Entry(next, version)
    {
      version := if id in entries then entries[id].version + 1 else 1;
      if next.Some? {
        heap := Push(heap, Node(next.value, id, version));
      }
      entries := entries[id := Entry(next, version)];
    }

    method DeleteEntry(id: CronId) returns (existed: bool)
      modifies this
      ensures View() == Delete(old(View()), id)
      ensures existed <==> id in old(entries)
    {
      existed := id in entries;
      entries := entries - {id};
    }

    method Refresh(id: CronId, next: Option<int>) returns (version: Option<nat>)
      modifies this
      ensures View() == RefreshNextFire(old(View()), id, next)
      ensures version == if id in old(entries) then Some(old(entries)[id].version + 1) else None
    {
      if id !in entries {
        return None;
      }
      var v := entries[id].version + 1;
      entries := entries[id := Entry(next, v)];
      if next.Some? {
        heap := Push(heap, Node(next.value, id, v));
      }
      return Some(v);
    }

    /** Drops stale nodes from the front until a live one shows. */
    method Peek() returns (r: Option<Node>)
      modifies this
      ensures View() == DropStale(old(View())) && r == PeekNext(old(View()))
    {
      while heap != []
        invariant entries == old(entries) && DropStale(View()) == DropStale(old(View()))
        decreases |heap|
      {
        var top := heap[0];
        if top.id in entries && entries[top.id].version == top.version {
          return Some(top);
        }
        heap := heap[1..];
      }
      return None;
    }

    /** Removes the next live node, and every stale one before it. */
    method Pop() returns (r: Option<Node>)
      modifies this
      ensures r == PeekNext(old(View()))
      ensures entries == old(entries)
      ensures heap == if DropStale(old(View())).heap == [] then [] else DropStale(old(View())).heap[1..]
    {
      while heap != []
        invariant entries == old(entries) && DropStale(View()) == DropStale(old(View()))
        decreases |heap|
      {
        var top := heap[0];
        ghost var before := View();
        heap := heap[1..];
        if top.id in entries && entries[top.id].version == top.version {
          assert DropStale(before) == before;
          return Some(top);
        }
      }
      return None;
    }
  }
}
