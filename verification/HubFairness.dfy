/**
 Fair dispatch as non-interference: what one subscriber is sent, owes and can replay does not
 depend on anything another subscriber does.
 */
module HubFairness {
  import opened Wrappers
  import opened HubModel
  import opened HubRuns
  import HubRing
  import Chunking

  /** Everything about the hub that subscriber `i` can observe. */
  datatype Facet = Facet(
    config: HubConfig, sessionId: string, nextSeq: nat, ring: seq<Chunk>,
    history: seq<Chunk>, closedAt: nat, client: Client)

  function FacetOf(h: Hub, i: nat): Facet
    requires i in h.clients
  {
    Facet(h.config, h.sessionId, h.nextSeq, h.ring, h.history, h.closedAt, h.clients[i])
  }

  /** The producer's steps concern everybody; every other step concerns the subscriber it names. */
  predicate Concerns(step: Step, i: nat) {
    match step
    case DoPublish(_) => true
    case DoClose => true
    case DoSubscribe(_) => false
    case DoResume(id, _) => id == i
    case DoPark(id, _) => id == i
    case DoEvict(id, _) => id == i
    case DoTake(id, _) => id == i
    case DoAck(id, _) => id == i
  }

  /** The steps of a run that concern `i`, in order. */
  function Own(steps: seq<Step>, i: nat): seq<Step> {
    if steps == [] then []
    else
      var front := Own(steps[..|steps| - 1], i);
      if Concerns(steps[|steps| - 1], i) then front + [steps[|steps| - 1]] else front
  }

  /** A step that names somebody else leaves the facet alone. */
  lemma OthersAreInvisible(h: Hub, step: Step, i: nat)
    requires ClientsOk(h) && i in h.clients && !Concerns(step, i)
    ensures i in Apply(h, step).clients && FacetOf(Apply(h, step), i) == FacetOf(h, i)
  {
    hide Attach, TakeOne, AckOne, ParkClient;
  }

  /** The same step, naming `j` where it names `i`. */
  function Renamed(step: Step, i: nat, j: nat): Step {
    match step
    case DoResume(id, since) => DoResume(if id == i then j else id, since)
    case DoPark(id, now) => DoPark(if id == i then j else id, now)
    case DoEvict(id, now) => DoEvict(if id == i then j else id, now)
    case DoTake(id, channel) => DoTake(if id == i then j else id, channel)
    case DoAck(id, channel) => DoAck(if id == i then j else id, channel)
    case _ => step
  }

  /** Two subscribers of two hubs can observe exactly the same. */
  predicate SameFacet(h: Hub, i: nat, g: Hub, j: nat) {
    i in h.clients && j in g.clients && FacetOf(h, i) == FacetOf(g, j)
  }

  lemma {:induction false} SamePublishAll(h: Hub, i: nat, g: Hub, j: nat, ps: seq<Chunk>)
    requires SameFacet(h, i, g, j)
    ensures SameFacet(PublishAll(h, ps), i, PublishAll(g, ps), j)
  {
    hide Fit, Deliver;
    if ps != [] {
      SamePublishAll(h, i, g, j, ps[..|ps| - 1]);
    }
  }

  /** A step that concerns `i` acts on the facet alone, whatever number the subscriber goes by. */
  lemma SameFacetSameEffect(h: Hub, i: nat, g: Hub, j: nat, step: Step)
    requires SameFacet(h, i, g, j) && Concerns(step, i)
    ensures SameFacet(Apply(h, step), i, Apply(g, Renamed(step, i, j)), j)
  {
    hide Chunking.Chunks, PublishAll, TakeOne, AckOne, ParkClient, Evictable, PushAll, After;
    match step
    case DoPublish(payload) => SamePublishAll(h, i, g, j, Chunking.Chunks(h.sessionId, h.nextSeq, payload));
    case _ =>
  }

  /** Dropping the other subscribers' steps from a run changes nothing `i` can observe. */
  lemma {:induction false} OnlyOwnStepsMatter(h: Hub, steps: seq<Step>, i: nat)
    requires Inv(h) && i in h.clients
    ensures i in Run(h, steps).clients && i in Run(h, Own(steps, i)).clients
    ensures FacetOf(Run(h, steps), i) == FacetOf(Run(h, Own(steps, i)), i)
  {
    hide Apply, Concerns, HistoryOk, HubRing.RingOk, ClientsOk, FacetOf;
    if steps != [] {
      var front, last := steps[..|steps| - 1], steps[|steps| - 1];
      OnlyOwnStepsMatter(h, front, i);
      RunKeepsInv(h, front);
      var own := Own(front, i);
      if Concerns(last, i) {
        RenamedSame(last, i);
        SameFacetSameEffect(Run(h, front), i, Run(h, own), i, last);
        assert (own + [last])[..|own|] == own;
      } else {
        OthersAreInvisible(Run(h, front), last, i);
      }
    }
  }

  lemma RenamedSame(step: Step, i: nat)
    ensures Renamed(step, i, i) == step
  {
  }

  function RenamedAll(steps: seq<Step>, i: nat, j: nat): seq<Step> {
    if steps == [] then [] else RenamedAll(steps[..|steps| - 1], i, j) + [Renamed(steps[|steps| - 1], i, j)]
  }

  /** Runs with the same steps, up to the subscriber's number, from facet-equal hubs end facet-equal, when every step concerns it. */
  lemma {:induction false} SameRunSameFacet(h: Hub, i: nat, g: Hub, j: nat, steps: seq<Step>)
    requires SameFacet(h, i, g, j)
    requires forall k :: 0 <= k < |steps| ==> Concerns(steps[k], i)
    ensures SameFacet(Run(h, steps), i, Run(g, RenamedAll(steps, i, j)), j)
  {
    hide Apply, Concerns, SameFacet, Renamed;
    if steps != [] {
      var front, last := steps[..|steps| - 1], steps[|steps| - 1];
      SameRunSameFacet(h, i, g, j, front);
      SameFacetSameEffect(Run(h, front), i, Run(g, RenamedAll(front, i, j)), j, last);
      var all := RenamedAll(steps, i, j);
      assert all[..|all| - 1] == RenamedAll(front, i, j);
    }
  }

  lemma {:induction false} OwnConcerns(steps: seq<Step>, i: nat)
    ensures forall k :: 0 <= k < |Own(steps, i)| ==> Concerns(Own(steps, i)[k], i)
  {
    hide Concerns;
    if steps != [] {
      OwnConcerns(steps[..|steps| - 1], i);
    }
  }

  /** Facet-equal subscribers stay so under runs with the same steps of their own. */
  lemma FacetsStayEqual(h: Hub, i: nat, left: seq<Step>, g: Hub, j: nat, right: seq<Step>)
    requires Inv(h) && Inv(g) && SameFacet(h, i, g, j)
    requires RenamedAll(Own(left, i), i, j) == Own(right, j)
    ensures SameFacet(Run(h, left), i, Run(g, right), j)
  {
    OnlyOwnStepsMatter(h, left, i);
    OnlyOwnStepsMatter(g, right, j);
    OwnConcerns(left, i);
    SameRunSameFacet(h, i, g, j, Own(left, i));
    hide Run, Own, RenamedAll, FacetOf, Inv;
  }

  // From the start of the hub.

  /** The publishes and closes of a run, in order. */
  function Producers(steps: seq<Step>): seq<Step> {
    if steps == [] then []
    else
      var front := Producers(steps[..|steps| - 1]);
      var last := steps[|steps| - 1];
      if last.DoPublish? || last.DoClose? then front + [last] else front
  }

  /** What the hub is without its subscribers. */
  function Core(h: Hub): Hub {
    h.(clients := map[], nextSubId := 1)
  }

  lemma {:induction false} PublishAllCore(h: Hub, ps: seq<Chunk>)
    ensures Core(PublishAll(h, ps)) == PublishAll(Core(h), ps)
  {
    hide Fit;
    if ps != [] {
      PublishAllCore(h, ps[..|ps| - 1]);
    }
  }

  lemma StepCore(h: Hub, step: Step)
    ensures Core(Apply(h, step)) == if step.DoPublish? || step.DoClose? then Apply(Core(h), step) else Core(h)
  {
    hide Attach, TakeOne, AckOne, ParkClient, Evictable, PublishAll, Chunking.Chunks;
    if step.DoPublish? {
      PublishAllCore(h, Chunking.Chunks(h.sessionId, h.nextSeq, step.payload));
    }
  }

  /** Ring, history and numbering are made by the producer's steps alone. */
  lemma {:induction false} CoreIsProducers(h: Hub, steps: seq<Step>)
    ensures Core(Run(h, steps)) == Run(Core(h), Producers(steps))
  {
    hide Apply, Core;
    if steps != [] {
      var front, last := steps[..|steps| - 1], steps[|steps| - 1];
      CoreIsProducers(h, front);
      StepCore(Run(h, front), last);
      var p := Producers(front);
      assert (p + [last])[..|p|] == p;
    }
  }

  /** A newcomer sees the core alone. */
  lemma NewcomersSeeTheCore(h: Hub, g: Hub, since: Option<nat>)
    requires Core(h) == Core(g)
    ensures SameFacet(Subscribe(h, since), h.nextSubId, Subscribe(g, since), g.nextSubId)
  {
    hide PushAll, After;
  }

  lemma {:induction false} RunConcat(h: Hub, a: seq<Step>, b: seq<Step>)
    ensures Run(h, a + b) == Run(Run(h, a), b)
    decreases |b|
  {
    hide Apply;
    if b == [] {
      assert a + b == a;
    } else {
      RunConcat(h, a, b[..|b| - 1]);
      assert (a + b)[..|a + b| - 1] == a + b[..|b| - 1];
    }
  }

  /** A run in which one subscriber arrives between `before` and `after`. */
  function WithArrival(before: seq<Step>, since: Option<nat>, after: seq<Step>): seq<Step> {
    before + [DoSubscribe(since)] + after
  }

  /**
   Two whole runs of the hub, with the same publishes and closes before a subscriber arrives, and
   the same publishes, closes and steps of its own afterwards. Whatever all the others do, before
   and after, and however many they are, the two arrivals are sent the same, owe the same, and have
   the same ring to replay from; only the number each goes by may differ.
   */
  lemma FairDispatch(sessionId: string, config: HubConfig, since: Option<nat>,
                     before: seq<Step>, left: seq<Step>, otherBefore: seq<Step>, right: seq<Step>)
    requires Producers(before) == Producers(otherBefore)
    requires var i, j := Run(NewHub(sessionId, config), before).nextSubId, Run(NewHub(sessionId, config), otherBefore).nextSubId;
             RenamedAll(Own(left, i), i, j) == Own(right, j)
    ensures var h0 := NewHub(sessionId, config);
            SameFacet(Run(h0, WithArrival(before, since, left)), Run(h0, before).nextSubId,
                      Run(h0, WithArrival(otherBefore, since, right)), Run(h0, otherBefore).nextSubId)
  {
    var h0 := NewHub(sessionId, config);
    NewHubInv(sessionId, config);
    hide NewHub, Core, Producers, Own, RenamedAll, SameFacet, Inv;
    CoreIsProducers(h0, before);
    CoreIsProducers(h0, otherBefore);
    var h, g := Run(h0, before), Run(h0, otherBefore);
    ArrivalRun(h0, before, since, left);
    ArrivalRun(h0, otherBefore, since, right);
    hide Run;
    NewcomersSeeTheCore(h, g, since);
    RunKeepsInv(h0, before);
    RunKeepsInv(h0, otherBefore);
    SubscribeKeepsInv(h, since);
    SubscribeKeepsInv(g, since);
    hide Subscribe;
    FacetsStayEqual(Subscribe(h, since), h.nextSubId, left, Subscribe(g, since), g.nextSubId, right);
  }

  lemma ArrivalRun(h0: Hub, before: seq<Step>, since: Option<nat>, after: seq<Step>)
    ensures Run(h0, WithArrival(before, since, after)) == Run(Subscribe(Run(h0, before), since), after)
  {
    RunConcat(h0, before + [DoSubscribe(since)], after);
    assert (before + [DoSubscribe(since)])[..|before|] == before;
    hide Subscribe;
  }
}
