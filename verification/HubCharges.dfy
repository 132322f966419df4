/** The byte budget of each subscriber: what is charged is what was sent and not yet acknowledged. */
module HubCharges {
  import opened Wrappers
  import opened HubModel
  import opened HubStreams
  import opened HubRuns
  import opened HubDelivery
  import Chunking
  import HubRing

  function ChargeOf(events: seq<Event>): nat {
    if events == [] then 0 else EventCharge(events[0]) + ChargeOf(events[1..])
  }

  /** The outputs of the newest channel that its receiver has not acknowledged. */
  function Unacked(c: Client): seq<Event>
    requires c.channels != [] && Latest(c).acked <= |Latest(c).sent|
  {
    Latest(c).sent[Latest(c).acked..]
  }

  /** The entry's byte count is the charge of what its newest channel still owes, and within the cap. */
  ghost predicate Charged(c: Client, cap: nat) {
    c.entry.Some? ==>
      && c.channels != [] && Latest(c).acked <= |Latest(c).sent|
      && c.entry.value.queuedBytes == ChargeOf(Unacked(c)) <= cap
  }

  ghost predicate AllCharged(h: Hub) {
    forall id :: id in h.clients ==> Charged(h.clients[id], h.config.subQueueBytes)
  }

  lemma {:induction false} ChargeOfSnoc(events: seq<Event>, e: Event)
    ensures ChargeOf(events + [e]) == ChargeOf(events) + EventCharge(e)
  {
    hide EventCharge;
    if events == [] {
      assert (events + [e])[1..] == [];
    } else {
      ChargeOfSnoc(events[1..], e);
      assert (events + [e])[1..] == events[1..] + [e];
    }
  }

  /** The newest channel is the one the entry sends on. */
  predicate SendsOnLatest(c: Client) {
    c.entry.Some? && c.entry.value.tx.Some? ==> c.channels != [] && c.entry.value.tx.value == |c.channels| - 1
  }

  lemma PushCharged(c: Client, p: Chunk, cap: nat)
    requires SendsOnLatest(c) && Charged(c, cap)
    ensures SendsOnLatest(Push(c, p, cap)) && Charged(Push(c, p, cap), cap)
  {
    hide ChunkLen, Widen, ChargeOf;
    if c.entry.Some? && c.entry.value.tx.Some? {
      var ch := Latest(c);
      var e := if c.entry.value.queuedBytes + ChunkLen(p) <= cap then Output(p) else GapFor(p);
      ChargeOfSnoc(Unacked(c), e);
      assert (ch.sent + [e])[ch.acked..] == Unacked(c) + [e];
      assert Latest(Push(c, p, cap)).sent == ch.sent + [e];
    }
  }

  lemma {:induction false} PushAllCharged(c: Client, ps: seq<Chunk>, cap: nat)
    requires SendsOnLatest(c) && Charged(c, cap)
    ensures SendsOnLatest(PushAll(c, ps, cap)) && Charged(PushAll(c, ps, cap), cap)
  {
    hide SendsOnLatest, Charged, Push;
    if ps != [] {
      PushAllCharged(c, ps[..|ps| - 1], cap);
      PushCharged(PushAll(c, ps[..|ps| - 1], cap), ps[|ps| - 1], cap);
    }
  }

  lemma AttachCharged(h: Hub, e: SubEntry, channels: seq<Channel>, since: Option<nat>)
    ensures Charged(Attach(h, e, channels, since), h.config.subQueueBytes)
  {
    hide PushAll, Backlog, CatchUpFrom;
    var start := CatchUpFrom(h, since);
    var c := Client(Some(e.(tx := Some(|channels|), queuedBytes := 0, pendingGap := None, parked := None)),
                    channels + [Channel(if start < 0 then 0 else start, [], 0, 0)]);
    PushAllCharged(c, Backlog(h, since), h.config.subQueueBytes);
  }

  lemma DeliverCharged(c: Client, p: Chunk, cap: nat)
    requires SendsOnLatest(c) && Charged(c, cap)
    ensures SendsOnLatest(Deliver(c, p, cap)) && Charged(Deliver(c, p, cap), cap)
  {
    hide SendsOnLatest, Charged, Push;
    PushCharged(c, p, cap);
  }

  lemma {:induction false} PublishAllCharged(h: Hub, ps: seq<Chunk>)
    requires AllCharged(h) && forall id :: id in h.clients ==> SendsOnLatest(h.clients[id])
    ensures AllCharged(PublishAll(h, ps))
    ensures forall id :: id in PublishAll(h, ps).clients ==> SendsOnLatest(PublishAll(h, ps).clients[id])
    ensures PublishAll(h, ps).config == h.config
  {
    hide SendsOnLatest, Charged, Deliver, Fit;
    if ps != [] {
      var front, last := ps[..|ps| - 1], ps[|ps| - 1];
      PublishAllCharged(h, front);
      var g := PublishAll(h, front);
      forall id | id in g.clients
        ensures SendsOnLatest(Deliver(g.clients[id], last, g.config.subQueueBytes)) &&
                Charged(Deliver(g.clients[id], last, g.config.subQueueBytes), g.config.subQueueBytes)
      {
        DeliverCharged(g.clients[id], last, g.config.subQueueBytes);
      }
    }
  }

  lemma TrackedSendsOnLatest(c: Client, history: seq<Chunk>, upTo: nat)
    requires Tracks(c, history, upTo)
    ensures SendsOnLatest(c)
  {
  }

  /** The charge an acknowledgement of the i-th channel gives back. */
  function AckCharge(c: Client, i: nat): nat
    requires CanAck(c, i)
  {
    EventCharge(c.channels[i].sent[c.channels[i].acked])
  }

  /**
   An acknowledgement that gives bytes back to an entry it did not take them from: one that
   comes from the receiver of a replaced channel while the new channel still owes something.
   */
  predicate Misdirected(c: Client, i: nat) {
    && CanAck(c, i)
    && c.entry.Some? && i != |c.channels| - 1
    && AckCharge(c, i) > 0 && c.entry.value.queuedBytes > 0
  }

  /** An acknowledgement keeps the charge exact unless it is misdirected; from the newest channel it never underflows. */
  lemma AckChargedIff(c: Client, i: nat, cap: nat)
    requires Charged(c, cap)
    ensures Charged(AckOne(c, i), cap) <==> !Misdirected(c, i)
    ensures CanAck(c, i) && c.entry.Some? && i == |c.channels| - 1 ==> AckCharge(c, i) <= c.entry.value.queuedBytes
  {
    hide EventCharge;
    if CanAck(c, i) && c.entry.Some? {
      var ch := c.channels[i];
      if i == |c.channels| - 1 {
        assert Unacked(c)[1..] == ch.sent[ch.acked + 1..];
        assert Unacked(c)[0] == ch.sent[ch.acked];
      } else {
        assert Latest(AckOne(c, i)) == Latest(c);
      }
    }
  }

  /** A step is harmless to the accounts unless it is a misdirected acknowledgement. */
  predicate Harmless(h: Hub, step: Step) {
    step.DoAck? && step.id in h.clients ==> !Misdirected(h.clients[step.id], step.channel)
  }

  lemma UpdateCharged(h: Hub, id: nat, c: Client)
    requires AllCharged(h) && id in h.clients
    ensures AllCharged(h.(clients := h.clients[id := c])) <==> Charged(c, h.config.subQueueBytes)
  {
    hide Charged;
    var h' := h.(clients := h.clients[id := c]);
    assert id in h'.clients && h'.clients[id] == c;
  }

  /** From an exact state, a step leaves every account exact just when it is harmless. */
  lemma StepChargedIff(h: Hub, step: Step)
    requires Inv(h) && AllCharged(h)
    ensures AllCharged(Apply(h, step)) <==> Harmless(h, step)
  {
    var cap := h.config.subQueueBytes;
    hide HistoryOk, HubRing.RingOk, Tracks, Charged, AllCharged, Attach, PublishAll, Misdirected;
    match step
    case DoPublish(payload) =>
      forall id | id in h.clients ensures SendsOnLatest(h.clients[id]) {
        TrackedSendsOnLatest(h.clients[id], h.history, |h.history|);
      }
      PublishAllCharged(h, Chunking.Chunks(h.sessionId, h.nextSeq, payload));
    case DoSubscribe(since) => SubscribeCharged(h, since);
    case DoResume(id, since) =>
      if CanResume(h, id) {
        AttachCharged(h, h.clients[id].entry.value, h.clients[id].channels, since);
        UpdateCharged(h, id, Attach(h, h.clients[id].entry.value, h.clients[id].channels, since));
      }
    case DoPark(id, now) =>
      if id in h.clients {
        QuietCharged(h, id, now + h.config.parkDuration, 0);
        UpdateCharged(h, id, ParkClient(h.clients[id], now + h.config.parkDuration));
      }
    case DoEvict(id, now) =>
      if id in h.clients {
        QuietCharged(h, id, 0, 0);
        UpdateCharged(h, id, h.clients[id].(entry := None));
      }
    case DoClose => CloseCharged(h);
    case DoTake(id, i) =>
      if id in h.clients {
        QuietCharged(h, id, 0, i);
        UpdateCharged(h, id, TakeOne(h.clients[id], i));
      }
    case DoAck(id, i) =>
      if id in h.clients {
        ChargedOf(h, id);
        AckChargedIff(h.clients[id], i, cap);
        UpdateCharged(h, id, AckOne(h.clients[id], i));
      }
  }

  lemma ChargedOf(h: Hub, id: nat)
    requires AllCharged(h) && id in h.clients
    ensures Charged(h.clients[id], h.config.subQueueBytes)
  {
  }

  lemma SubscribeCharged(h: Hub, since: Option<nat>)
    requires AllCharged(h)
    ensures AllCharged(Subscribe(h, since))
  {
    AttachCharged(h, FRESH_ENTRY, [], since);
    hide Charged, Attach;
  }

  lemma CloseCharged(h: Hub)
    ensures AllCharged(Close(h))
  {
  }

  /** Parking, evicting and taking an event off a channel move no bytes. */
  lemma QuietCharged(h: Hub, id: nat, deadline: nat, i: nat)
    requires AllCharged(h) && id in h.clients
    ensures Charged(ParkClient(h.clients[id], deadline), h.config.subQueueBytes)
    ensures Charged(h.clients[id].(entry := None), h.config.subQueueBytes)
    ensures Charged(TakeOne(h.clients[id], i), h.config.subQueueBytes)
  {
    ChargedOf(h, id);
    hide ChargeOf, AllCharged;
    var c := h.clients[id];
    if c.entry.Some? && CanTake(c, i) {
      assert Unacked(TakeOne(c, i)) == Unacked(c);
    }
  }

  /** Every state of the run, from the first to the last, has exact accounts. */
  ghost predicate AlwaysCharged(h: Hub, steps: seq<Step>) {
    AllCharged(Run(h, steps)) && (steps != [] ==> AlwaysCharged(h, steps[..|steps| - 1]))
  }

  predicate AllHarmless(h: Hub, steps: seq<Step>) {
    steps != [] ==>
      AllHarmless(h, steps[..|steps| - 1]) && Harmless(Run(h, steps[..|steps| - 1]), steps[|steps| - 1])
  }

  /**
   Through a whole run every registered subscriber's byte count equals its sent and
   unacknowledged outputs and stays within its cap, exactly when no receiver of a replaced
   channel acknowledges bytes while the new one still owes some.
   */
  lemma {:induction false} AccountsExactIffNoMisdirectedAck(h: Hub, steps: seq<Step>)
    requires Inv(h) && AllCharged(h)
    ensures AlwaysCharged(h, steps) <==> AllHarmless(h, steps)
  {
    hide Inv, AllCharged, Apply, Harmless;
    if steps != [] {
      var front := steps[..|steps| - 1];
      AccountsExactIffNoMisdirectedAck(h, front);
      if AllHarmless(h, front) {
        AlwaysChargedNow(h, front);
        RunKeepsInv(h, front);
        StepChargedIff(Run(h, front), steps[|steps| - 1]);
      }
    }
  }

  lemma AlwaysChargedNow(h: Hub, steps: seq<Step>)
    requires AlwaysCharged(h, steps)
    ensures AllCharged(Run(h, steps))
  {
  }

  /** From a new hub: every account is exact through the whole run exactly when no acknowledgement in it is misdirected. */
  lemma ChargesOfEveryRun(sessionId: string, config: HubConfig, steps: seq<Step>)
    ensures AlwaysCharged(NewHub(sessionId, config), steps) <==> AllHarmless(NewHub(sessionId, config), steps)
  {
    NewHubInv(sessionId, config);
    assert AllCharged(NewHub(sessionId, config));
    hide *;
    AccountsExactIffNoMisdirectedAck(NewHub(sessionId, config), steps);
  }

  /** An acknowledgement takes off more than the entry's count holds: the saturating subtraction cuts it off at zero. */
  predicate Clamps(h: Hub, step: Step) {
    step.DoAck? && step.id in h.clients &&
    var c := h.clients[step.id];
    CanAck(c, step.channel) && c.entry.Some? && AckCharge(c, step.channel) > c.entry.value.queuedBytes
  }

  /** An acknowledgement of some bytes that meets a registered id on a channel other than its newest. */
  predicate StaleAck(h: Hub, step: Step) {
    step.DoAck? && step.id in h.clients &&
    var c := h.clients[step.id];
    CanAck(c, step.channel) && c.entry.Some? && step.channel != |c.channels| - 1 && AckCharge(c, step.channel) > 0
  }

  predicate NeverClamps(h: Hub, steps: seq<Step>) {
    steps != [] ==>
      NeverClamps(h, steps[..|steps| - 1]) && !Clamps(Run(h, steps[..|steps| - 1]), steps[|steps| - 1])
  }

  predicate NoStaleAcks(h: Hub, steps: seq<Step>) {
    steps != [] ==>
      NoStaleAcks(h, steps[..|steps| - 1]) && !StaleAck(Run(h, steps[..|steps| - 1]), steps[|steps| - 1])
  }

  /** From exact accounts, a stale acknowledgement clamps or spoils the account, and nothing else does either. */
  lemma StaleAckIff(h: Hub, step: Step)
    requires Inv(h) && AllCharged(h)
    ensures AllCharged(Apply(h, step)) && !Clamps(h, step) <==> !StaleAck(h, step)
  {
    StepChargedIff(h, step);
    if step.DoAck? && step.id in h.clients {
      ChargedOf(h, step.id);
      AckChargedIff(h.clients[step.id], step.channel, h.config.subQueueBytes);
    }
    hide Inv, AllCharged, Charged, Apply, CanAck, AckCharge;
  }

  lemma {:induction false} ExactIffNoStaleAcks(h: Hub, steps: seq<Step>)
    requires Inv(h) && AllCharged(h)
    ensures AlwaysCharged(h, steps) && NeverClamps(h, steps) <==> NoStaleAcks(h, steps)
  {
    hide Inv, AllCharged, Apply, Clamps, StaleAck;
    if steps != [] {
      var front := steps[..|steps| - 1];
      ExactIffNoStaleAcks(h, front);
      if AlwaysCharged(h, front) {
        AlwaysChargedNow(h, front);
        RunKeepsInv(h, front);
        StaleAckIff(Run(h, front), steps[|steps| - 1]);
      }
    }
  }

  /**
   In every run of a new hub: every count equals what was sent and not acknowledged, within its
   cap, and no subtraction is ever cut off at zero, exactly when no acknowledgement of some bytes
   reaches a registered id from a receiver that was replaced.
   */
  lemma AccountsOfEveryRun(sessionId: string, config: HubConfig, steps: seq<Step>)
    ensures AlwaysCharged(NewHub(sessionId, config), steps) && NeverClamps(NewHub(sessionId, config), steps)
            <==> NoStaleAcks(NewHub(sessionId, config), steps)
  {
    NewHubInv(sessionId, config);
    assert AllCharged(NewHub(sessionId, config));
    hide *;
    ExactIffNoStaleAcks(NewHub(sessionId, config), steps);
  }

  lemma RunSnoc(h: Hub, steps: seq<Step>, step: Step)
    ensures Run(h, steps + [step]) == Apply(Run(h, steps), step)
  {
    assert (steps + [step])[..|steps|] == steps;
    hide Apply;
  }

  /** A one-byte payload is one chunk, charged one byte. */
  /** A client with one open channel, to which the chunk `p` was sent, and `taken` events taken off it. */
  function OneChunkClient(p: Chunk, taken: nat): Client {
    Client(Some(SubEntry(Some(0), 1, None, false, None)), [Channel(0, [Output(p)], taken, 0)])
  }

  lemma FirstChunk(h: Hub, p: Chunk)
    requires h.ring == [] && h.clients == map[1 := Client(Some(FRESH_ENTRY), [Channel(0, [], 0, 0)])]
    requires ChunkLen(p) == 1 && h.config.ringBytes >= 1 && h.config.subQueueBytes >= 1
    ensures PublishChunk(h, p).ring == [p]
    ensures PublishChunk(h, p).clients == map[1 := OneChunkClient(p, 0)]
  {
    HubRing.SumLenOne(p);
    hide ChunkLen, SumLen;
    assert [] + [p] == [p];
    var c := h.clients[1];
    assert Deliver(c, p, h.config.subQueueBytes) == OneChunkClient(p, 0) by {
      assert [] + [Output(p)] == [Output(p)];
      assert [Channel(0, [], 0, 0)][0 := Channel(0, [Output(p)], 0, 0)] == [Channel(0, [Output(p)], 0, 0)];
    }
    hide Deliver;
  }

  /** A resume from the start replays the one chunk into a second channel and charges it. */
  lemma ResumeReplaysOne(h: Hub, p: Chunk)
    requires h.ring == [p] && |h.history| == 1 && ChunkLen(p) == 1 && p.seqNo == 1 && h.config.subQueueBytes >= 1
    ensures var c := Attach(h, OneChunkClient(p, 1).entry.value, OneChunkClient(p, 1).channels, Some(0));
            && c.entry.Some? && c.entry.value.queuedBytes == 1 && |c.channels| == 2
            && c.channels[0] == Channel(0, [Output(p)], 1, 0)
  {
    var prior := OneChunkClient(p, 1);
    var reattached := Client(Some(SubEntry(Some(1), 0, None, false, None)), prior.channels + [Channel(0, [], 0, 0)]);
    AfterOne(p);
    PushAllOne(reattached, p, h.config.subQueueBytes);
    hide ChunkLen, PushAll, After;
  }

  lemma AfterOne(p: Chunk)
    requires p.seqNo == 1
    ensures After([p], 0) == [p]
  {
    assert [p][1..] == [];
    assert [p] + [] == [p];
  }

  lemma PushAllOne(c: Client, p: Chunk, cap: nat)
    ensures PushAll(c, [p], cap) == Push(c, p, cap)
  {
    assert [p][..0] == [];
    assert PushAll(c, [], cap) == c;
    hide Push;
  }

  lemma TakeFirst(p: Chunk)
    ensures TakeOne(OneChunkClient(p, 0), 0) == OneChunkClient(p, 1)
  {
    assert [Channel(0, [Output(p)], 0, 0)][0 := Channel(0, [Output(p)], 1, 0)] == [Channel(0, [Output(p)], 1, 0)];
  }

  /** A live-only resume replays nothing: the second channel owes nothing. */
  lemma ResumeReplaysNone(h: Hub, p: Chunk)
    ensures var c := Attach(h, OneChunkClient(p, 1).entry.value, OneChunkClient(p, 1).channels, None);
            && c.entry.Some? && c.entry.value.queuedBytes == 0 && |c.channels| == 2
            && c.channels[0] == Channel(0, [Output(p)], 1, 0)
  {
  }

  /** One subscriber takes the one published chunk off its channel and has not acknowledged it yet. */
  function TakeOneByte(b: byte): seq<Step> {
    [DoSubscribe(None)] + [DoPublish([b])] + [DoTake(1, 0)]
  }

  /** Its subscription is resumed before the acknowledgement lands. */
  function AckAfterResume(b: byte, since: Option<nat>): seq<Step> {
    TakeOneByte(b) + [DoResume(1, since)] + [DoAck(1, 0)]
  }

  lemma TakenNotAcked(sessionId: string, config: HubConfig, b: byte) returns (p: Chunk)
    requires config.ringBytes >= 1 && config.subQueueBytes >= 1
    ensures ChunkLen(p) == 1 && p.seqNo == 1
    ensures var h := Run(NewHub(sessionId, config), TakeOneByte(b));
            h.ring == [p] && |h.history| == 1 && h.config == config && h.clients == map[1 := OneChunkClient(p, 1)]
  {
    OneChunk(sessionId, 1, [b]);
    p := Chunking.Chunks(sessionId, 1, [b])[0];
    assert Chunking.Chunks(sessionId, 1, [b]) == [p];
    hide Chunking.Chunks, ChunkLen;
    var h0 := NewHub(sessionId, config);
    FirstSubscriber(sessionId, config);
    var h1 := Subscribe(h0, None);
    PublishOne(h1, [b], p);
    FirstChunk(h1, p);
    TakeFirst(p);
    hide TakeOne, Publish;
    RunSnoc(h0, [], DoSubscribe(None));
    assert [] + [DoSubscribe(None)] == [DoSubscribe(None)] && Run(h0, []) == h0;
    RunSnoc(h0, [DoSubscribe(None)], DoPublish([b]));
    RunSnoc(h0, [DoSubscribe(None)] + [DoPublish([b])], DoTake(1, 0));
    hide Run, Subscribe;
  }

  /** Five ordinary steps of a new hub after which a subscriber's account is wrong. */
  lemma MisdirectedAckHappens(sessionId: string, config: HubConfig, b: byte)
    requires config.ringBytes >= 1 && config.subQueueBytes >= 1
    ensures !AlwaysCharged(NewHub(sessionId, config), AckAfterResume(b, Some(0)))
  {
    var h0, steps := NewHub(sessionId, config), TakeOneByte(b);
    var p := TakenNotAcked(sessionId, config, b);
    hide NewHub, TakeOneByte, ChunkLen;
    ResumeReplaysOne(Run(h0, steps), p);
    RunSnoc(h0, steps, DoResume(1, Some(0)));
    hide Attach, Run;
    assert Misdirected(Run(h0, steps + [DoResume(1, Some(0))]).clients[1], 0);
    assert AckAfterResume(b, Some(0))[..|AckAfterResume(b, Some(0))| - 1] == steps + [DoResume(1, Some(0))];
    ChargesOfEveryRun(sessionId, config, AckAfterResume(b, Some(0)));
  }

  /** The same with a live-only resume: every account stays exact, and the last subtraction is cut off at zero. */
  lemma ClampHappens(sessionId: string, config: HubConfig, b: byte)
    requires config.ringBytes >= 1 && config.subQueueBytes >= 1
    ensures var steps := TakeOneByte(b) + [DoResume(1, None)];
            Clamps(Run(NewHub(sessionId, config), steps), DoAck(1, 0)) && AlwaysCharged(NewHub(sessionId, config), steps + [DoAck(1, 0)])
  {
    var h0, steps := NewHub(sessionId, config), TakeOneByte(b);
    var p := TakenNotAcked(sessionId, config, b);
    hide NewHub, ChunkLen;
    NoAcksYet(h0, b);
    hide TakeOneByte;
    ResumeReplaysNone(Run(h0, steps), p);
    RunSnoc(h0, steps, DoResume(1, None));
    hide Attach, Run;
    var more := steps + [DoResume(1, None)];
    assert !Misdirected(Run(h0, more).clients[1], 0);
    assert more[..|more| - 1] == steps;
    assert (more + [DoAck(1, 0)])[..|more|] == more;
    ChargesOfEveryRun(sessionId, config, more + [DoAck(1, 0)]);
  }

  lemma NoAcksYet(h: Hub, b: byte)
    ensures AllHarmless(h, TakeOneByte(b))
  {
    var steps := TakeOneByte(b);
    HarmlessWithoutAcks(h, steps);
    hide AllHarmless;
  }

  lemma {:induction false} HarmlessWithoutAcks(h: Hub, steps: seq<Step>)
    requires forall k :: 0 <= k < |steps| ==> !steps[k].DoAck?
    ensures AllHarmless(h, steps)
  {
    hide Run, Misdirected;
    if steps != [] {
      HarmlessWithoutAcks(h, steps[..|steps| - 1]);
    }
  }
}
