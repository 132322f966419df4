/** What a subscriber is handed: its channel's events, each once and in order, by its own receives alone. */
module HubReceiving {
  import opened Wrappers
  import opened HubModel
  import opened HubStreams
  import opened HubRuns
  import Chunking
  import HubResume
  import HubRing

  /** A receive on the i-th channel of `id` that finds an event. */
  predicate Receives(h: Hub, step: Step, id: nat, i: nat) {
    step == DoTake(id, i) && id in h.clients && CanTake(h.clients[id], i)
  }

  /** What the receiver of the i-th channel of `id` has been handed in the course of a run, in order. */
  function Received(h: Hub, steps: seq<Step>, id: nat, i: nat): seq<Event> {
    if steps == [] then []
    else
      var front, last := steps[..|steps| - 1], steps[|steps| - 1];
      var g := Run(h, front);
      Received(h, front, id, i)
      + if Receives(g, last, id, i) then [g.clients[id].channels[i].sent[g.clients[id].channels[i].taken]] else []
  }

  /** A channel's receiver is where it was, and more may have been sent. */
  ghost predicate Extends(c: Client, c': Client, i: nat) {
    && |c.channels| <= |c'.channels|
    && (i < |c.channels| ==>
          c.channels[i].sent <= c'.channels[i].sent && c'.channels[i].taken == c.channels[i].taken)
    && (|c.channels| <= i < |c'.channels| ==> c'.channels[i].taken == 0)
  }

  lemma PushExtends(c: Client, c0: Client, p: Chunk, cap: nat, i: nat)
    requires Extends(c0, c, i)
    ensures Extends(c0, Push(c, p, cap), i) && Extends(c0, Deliver(c, p, cap), i)
  {
    hide ChunkLen, Widen;
  }

  lemma {:induction false} PushAllExtends(c: Client, c0: Client, ps: seq<Chunk>, cap: nat, i: nat)
    requires Extends(c0, c, i)
    ensures Extends(c0, PushAll(c, ps, cap), i)
  {
    hide Extends, Push;
    if ps != [] {
      PushAllExtends(c, c0, ps[..|ps| - 1], cap, i);
      PushExtends(PushAll(c, ps[..|ps| - 1], cap), c0, ps[|ps| - 1], cap, i);
    }
  }

  lemma {:induction false} PublishAllExtends(h: Hub, ps: seq<Chunk>, id: nat, i: nat)
    requires id in h.clients
    ensures id in PublishAll(h, ps).clients && Extends(h.clients[id], PublishAll(h, ps).clients[id], i)
  {
    hide Push, Deliver, Fit;
    if ps != [] {
      PublishAllExtends(h, ps[..|ps| - 1], id, i);
      hide Extends;
      PushExtends(PublishAll(h, ps[..|ps| - 1]).clients[id], h.clients[id], ps[|ps| - 1], h.config.subQueueBytes, i);
      PublishAllConfig(h, ps[..|ps| - 1]);
    }
  }

  lemma PublishAllConfig(h: Hub, ps: seq<Chunk>)
    ensures PublishAll(h, ps).config == h.config
  {
    HubResume.PublishAllKeepsConfig(h, ps);
  }

  lemma AttachExtends(h: Hub, e: SubEntry, channels: seq<Channel>, c0: Client, since: Option<nat>, i: nat)
    requires c0.channels == channels
    ensures Extends(c0, Attach(h, e, channels, since), i)
  {
    var start := CatchUpFrom(h, since);
    var c := Client(Some(e.(tx := Some(|channels|), queuedBytes := 0, pendingGap := None, parked := None)),
                    channels + [Channel(if start < 0 then 0 else start, [], 0, 0)]);
    hide Backlog, PushAll, CatchUpFrom;
    PushAllExtends(c, c0, Backlog(h, since), h.config.subQueueBytes, i);
  }

  /** Only a receive on a channel moves its receiver, by one event. */
  lemma StepMovesReceiver(h: Hub, step: Step, id: nat, i: nat)
    requires ClientsOk(h) && id in h.clients
    ensures id in Apply(h, step).clients
    ensures Receives(h, step, id, i) ==>
              i < |Apply(h, step).clients[id].channels|
              && var ch := h.clients[id].channels[i];
                 Apply(h, step).clients[id].channels[i] == ch.(taken := ch.taken + 1)
    ensures !Receives(h, step, id, i) ==> Extends(h.clients[id], Apply(h, step).clients[id], i)
  {
    var c := h.clients[id];
    match step
    case DoPublish(payload) =>
      hide PublishAll, ClientsOk, Extends;
      PublishAllExtends(h, Chunking.Chunks(h.sessionId, h.nextSeq, payload), id, i);
    case DoSubscribe(_) => hide Attach, Tracks;
    case DoResume(j, since) =>
      hide Attach, ClientsOk;
      if j == id && CanResume(h, id) {
        AttachExtends(h, c.entry.value, c.channels, c, since, i);
      }
    case _ => hide Publish, Attach, ClientsOk;
  }

  /** The first events of the channel, as many as were received; nothing for a channel not yet open. */
  ghost predicate ReceivedSoFar(h: Hub, id: nat, i: nat, events: seq<Event>) {
    if id in h.clients && i < |h.clients[id].channels| then
      var ch := h.clients[id].channels[i];
      ch.taken <= |ch.sent| && events == ch.sent[..ch.taken]
    else events == []
  }

  lemma StepReceives(h: Hub, step: Step, id: nat, i: nat, events: seq<Event>)
    requires ClientsOk(h) && ReceivedSoFar(h, id, i, events)
    ensures ReceivedSoFar(Apply(h, step), id, i,
                          events + if Receives(h, step, id, i)
                                   then [h.clients[id].channels[i].sent[h.clients[id].channels[i].taken]] else [])
  {
    if id in h.clients {
      StepMovesReceiver(h, step, id, i);
      hide Apply, ClientsOk;
    } else {
      NewClientReceivesNothing(h, step, id, i);
      hide Apply, ClientsOk;
    }
  }

  lemma NewClientReceivesNothing(h: Hub, step: Step, id: nat, i: nat)
    requires ClientsOk(h) && id !in h.clients
    ensures id in Apply(h, step).clients && i < |Apply(h, step).clients[id].channels| ==>
              Apply(h, step).clients[id].channels[i].taken == 0
  {
    match step
    case DoPublish(payload) =>
      hide PublishAll, ClientsOk;
      PublishAllNoNewIds(h, Chunking.Chunks(h.sessionId, h.nextSeq, payload), id);
    case DoSubscribe(since) =>
      AttachExtends(h, FRESH_ENTRY, [], Client(None, []), since, i);
      hide Attach, Tracks;
    case _ => hide Publish, Attach, ClientsOk;
  }

  lemma {:induction false} PublishAllNoNewIds(h: Hub, ps: seq<Chunk>, id: nat)
    requires id !in h.clients
    ensures id !in PublishAll(h, ps).clients
  {
    hide Fit, Deliver;
    if ps != [] {
      PublishAllNoNewIds(h, ps[..|ps| - 1], id);
    }
  }

  /** In every run each channel's receiver is handed exactly the channel's first events, each once and in order. */
  lemma {:induction false} ReceivedInOrder(sessionId: string, config: HubConfig, steps: seq<Step>, id: nat, i: nat)
    ensures ReceivedSoFar(Run(NewHub(sessionId, config), steps), id, i, Received(NewHub(sessionId, config), steps, id, i))
  {
    var h0 := NewHub(sessionId, config);
    if steps != [] {
      var front := steps[..|steps| - 1];
      ReceivedInOrder(sessionId, config, front, id, i);
      NewHubInv(sessionId, config);
      RunKeepsInv(h0, front);
      hide NewHub, Apply, HistoryOk, HubRing.RingOk, ClientsOk, ReceivedSoFar, Receives;
      StepReceives(Run(h0, front), steps[|steps| - 1], id, i, Received(h0, front, id, i));
    }
  }
}
