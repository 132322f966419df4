/** End-to-end delivery: what a subscriber's events say about the bytes the session produced. */
module HubDelivery {
  import opened Wrappers
  import opened HubModel
  import opened HubStreams
  import opened HubRuns
  import Chunking
  import HubRing

  function FirstSeq(e: Event): nat { if e.Output? then e.chunk.seqNo else e.fromSeq }

  function LastSeq(e: Event): nat { if e.Output? then e.chunk.seqNo else e.toSeq }

  ghost function DeliveredBytes(sent: seq<Event>): seq<byte> {
    if sent == [] then []
    else
      DeliveredBytes(sent[..|sent| - 1])
      + if sent[|sent| - 1].Output? then Chunking.ChunkBytes(sent[|sent| - 1].chunk) else []
  }

  function DroppedBytes(sent: seq<Event>): nat {
    if sent == [] then 0
    else DroppedBytes(sent[..|sent| - 1]) + if sent[|sent| - 1].Gap? then sent[|sent| - 1].droppedBytes else 0
  }

  predicate NoGaps(sent: seq<Event>) {
    forall k :: 0 <= k < |sent| ==> sent[k].Output?
  }

  /** A subscriber that publishes reach: registered and not parked. */
  predicate Attached(h: Hub, id: nat) {
    id in h.clients && h.clients[id].entry.Some? && h.clients[id].entry.value.tx.Some?
  }

  /** The stream of events accounts for exactly the history from `start` to its end. */
  ghost predicate Continues(sent: seq<Event>, start: nat, history: seq<Chunk>) {
    && start + |sent| == |history|
    && forall k :: 0 <= k < |sent| ==> Describes(sent[k], history[start + k])
  }

  /** The bytes published by a run's payloads. */
  function PublishedBytes(steps: seq<Step>): seq<byte> {
    if steps == [] then []
    else
      PublishedBytes(steps[..|steps| - 1])
      + if steps[|steps| - 1].DoPublish? then steps[|steps| - 1].payload else []
  }

  /** An event that describes a chunk accounts for each of its bytes once. */
  lemma EventAccounts(e: Event, c: Chunk, sessionId: string)
    requires Describes(e, c) && GoodChunk(c, sessionId)
    ensures e.Output? ==> e.chunk == c
    ensures e.Gap? ==> e.droppedBytes == |Chunking.ChunkBytes(c)|
  {
  }

  lemma {:induction false} StreamAccounts(sent: seq<Event>, chunks: seq<Chunk>, sessionId: string)
    requires |sent| == |chunks|
    requires forall k :: 0 <= k < |sent| ==> Describes(sent[k], chunks[k]) && GoodChunk(chunks[k], sessionId)
    ensures |DeliveredBytes(sent)| + DroppedBytes(sent) == |Chunking.DecodedBytes(chunks)|
    ensures NoGaps(sent) ==> DeliveredBytes(sent) == Chunking.DecodedBytes(chunks)
  {
    hide Chunking.ChunkBytes, Describes, GoodChunk;
    if sent != [] {
      var n := |sent| - 1;
      StreamAccounts(sent[..n], chunks[..n], sessionId);
      EventAccounts(sent[n], chunks[n], sessionId);
    }
  }

  /** One channel's stream: consecutive numbers, each once, and no byte unaccounted for. */
  lemma StreamIsExact(sent: seq<Event>, start: nat, history: seq<Chunk>, sessionId: string)
    requires Continues(sent, start, history) && Numbered(history)
    requires forall k :: 0 <= k < |history| ==> GoodChunk(history[k], sessionId)
    ensures forall k :: 0 <= k < |sent| ==> FirstSeq(sent[k]) == LastSeq(sent[k]) == start + k + 1
    ensures |DeliveredBytes(sent)| + DroppedBytes(sent) == |Chunking.DecodedBytes(history[start..])|
    ensures NoGaps(sent) ==> DeliveredBytes(sent) == Chunking.DecodedBytes(history[start..])
  {
    hide Chunking.ChunkBytes, ChunkLen, DeliveredBytes, DroppedBytes, GoodChunk;
    StreamAccounts(sent, history[start..], sessionId);
    forall k | 0 <= k < |sent| ensures FirstSeq(sent[k]) == LastSeq(sent[k]) == start + k + 1 {
      assert Describes(sent[k], history[start + k]);
    }
  }

  lemma AttachedContinues(h: Hub, id: nat)
    requires Inv(h) && Attached(h, id)
    ensures h.clients[id].channels != []
    ensures Continues(Latest(h.clients[id]).sent, Latest(h.clients[id]).start, h.history)
  {
    hide HistoryOk, HubRing.RingOk, TrailingGap, Describes;
    assert Tracks(h.clients[id], h.history, |h.history|);
    assert ChannelOk(Latest(h.clients[id]), h.history);
  }

  lemma {:induction false} HistoryIsPublished(sessionId: string, config: HubConfig, steps: seq<Step>)
    ensures Chunking.DecodedBytes(Run(NewHub(sessionId, config), steps).history) == PublishedBytes(steps)
  {
    var h0 := NewHub(sessionId, config);
    if steps != [] {
      var front, last := steps[..|steps| - 1], steps[|steps| - 1];
      HistoryIsPublished(sessionId, config, front);
      NewHubInv(sessionId, config);
      RunKeepsInv(h0, front);
      StepExtendsHistory(Run(h0, front), last);
    }
  }

  /** Only publishing changes the history, by the published payload. */
  lemma StepExtendsHistory(h: Hub, step: Step)
    requires Inv(h)
    ensures Chunking.DecodedBytes(Apply(h, step).history)
            == Chunking.DecodedBytes(h.history) + if step.DoPublish? then step.payload else []
  {
    hide Inv, Publish, Attach, TakeOne, AckOne, ParkClient, Chunking.DecodedBytes, Chunking.Chunks;
    if step.DoPublish? {
      PublishKeepsInv(h, step.payload);
      var cs := Chunking.Chunks(h.sessionId, h.nextSeq, step.payload);
      Chunking.DecodedBytesConcat(h.history, cs);
      Chunking.ChunksCarryPayload(h.sessionId, h.nextSeq, step.payload);
    } else {
      assert Apply(h, step).history == h.history;
    }
  }

  /**
   For every run from a new hub, the events an attached subscriber has been sent have
   consecutive numbers with each number exactly once, each either the chunk or a notice of
   exactly that chunk's bytes; delivered and dropped bytes add up to what was published since
   its start, and without notices the delivered bytes are the very bytes published since then.
   */
  lemma EveryRunStreams(sessionId: string, config: HubConfig, steps: seq<Step>, id: nat)
    requires Attached(Run(NewHub(sessionId, config), steps), id)
    ensures var h := Run(NewHub(sessionId, config), steps);
            h.clients[id].channels != [] &&
            var ch := Latest(h.clients[id]);
            Continues(ch.sent, ch.start, h.history) &&
            (forall k :: 0 <= k < |ch.sent| ==> FirstSeq(ch.sent[k]) == LastSeq(ch.sent[k]) == ch.start + k + 1) &&
            var skipped := |Chunking.DecodedBytes(h.history[..ch.start])|;
            skipped + |DeliveredBytes(ch.sent)| + DroppedBytes(ch.sent) == |PublishedBytes(steps)| &&
            (NoGaps(ch.sent) ==> DeliveredBytes(ch.sent) == PublishedBytes(steps)[skipped..])
  {
    hide Run, NewHub, Inv, Continues, NoGaps, PublishedBytes, DeliveredBytes, DroppedBytes, Chunking.DecodedBytes;
    var h := Run(NewHub(sessionId, config), steps);
    NewHubInv(sessionId, config);
    RunKeepsInv(NewHub(sessionId, config), steps);
    AttachedContinues(h, id);
    HistoryIsPublished(sessionId, config, steps);
    StreamSinceStart(h, id);
    var ch := Latest(h.clients[id]);
    assert h.history[..ch.start] + h.history[ch.start..] == h.history;
    Chunking.DecodedBytesConcat(h.history[..ch.start], h.history[ch.start..]);
  }

  lemma StreamSinceStart(h: Hub, id: nat)
    requires Inv(h) && Attached(h, id)
    ensures h.clients[id].channels != []
    ensures var ch := Latest(h.clients[id]);
            ch.start <= |h.history| &&
            (forall k :: 0 <= k < |ch.sent| ==> FirstSeq(ch.sent[k]) == LastSeq(ch.sent[k]) == ch.start + k + 1) &&
            |DeliveredBytes(ch.sent)| + DroppedBytes(ch.sent) == |Chunking.DecodedBytes(h.history[ch.start..])| &&
            (NoGaps(ch.sent) ==> DeliveredBytes(ch.sent) == Chunking.DecodedBytes(h.history[ch.start..]))
  {
    hide HubRing.RingOk, ClientsOk, GoodChunk, DeliveredBytes, DroppedBytes, Chunking.DecodedBytes;
    AttachedContinues(h, id);
    var ch := Latest(h.clients[id]);
    StreamIsExact(ch.sent, ch.start, h.history, h.sessionId);
  }

  /** A fresh subscription misses nothing after `since` exactly when the ring still reaches back to it. */
  lemma SubscribeSince(h: Hub, since: nat)
    requires Inv(h) && since <= |h.history|
    ensures var h' := Subscribe(h, Some(since));
            Attached(h', h.nextSubId) && h'.clients[h.nextSubId].channels != [] &&
            var ch := Latest(h'.clients[h.nextSubId]);
            Continues(ch.sent, ch.start, h.history) &&
            (ch.start == since <==> Evicted(h) <= since)
  {
    hide HistoryOk, HubRing.RingOk, ClientsOk, Attach;
    AttachedAfter(h, FRESH_ENTRY, [], Some(since));
    SubscribeKeepsInv(h, Some(since));
    AttachedContinues(Subscribe(h, Some(since)), h.nextSubId);
  }

  lemma WantedIsTail(h: Hub, fromSeq: nat)
    requires HistoryOk(h) && HubRing.RingOk(h)
    ensures 0 <= CatchUpFrom(h, Some(SaturatingSub(fromSeq, 1))) <= |h.history|
    ensures HubRing.From(h.ring, fromSeq) == h.history[CatchUpFrom(h, Some(SaturatingSub(fromSeq, 1)))..]
  {
    RingNumbers(h);
    BacklogIsTail(h, Some(SaturatingSub(fromSeq, 1)));
    HubRing.FromIsAfter(h.ring, fromSeq);
    hide HistoryOk, HubRing.RingOk, HubRing.From, HubRing.Consecutive, CatchUpFrom, After;
  }

  /**
   In every run, a replay request returns the published chunks from the number asked for, or
   from the oldest still held, in order, up to and including the first that reaches the byte
   budget; and it returns more bytes than it was asked for exactly when some of those chunks
   fall short of the budget and one more exceeds it.
   */
  lemma ReplayInEveryRun(sessionId: string, config: HubConfig, steps: seq<Step>, fromSeq: nat, budget: nat)
    ensures var h := Run(NewHub(sessionId, config), steps);
            var start := CatchUpFrom(h, Some(SaturatingSub(fromSeq, 1)));
            && 0 <= start <= |h.history|
            && var wanted, out := h.history[start..], Replay(h.ring, fromSeq, budget);
               && out <= wanted
               && (out != [] ==> SumLen(wanted[..|out| - 1]) < budget)
               && (SumLen(out) < budget ==> out == wanted)
               && (SumLen(out) <= budget <==> HubRing.ReachesExactly(wanted, budget))
  {
    hide Run, NewHub, GoodChunk, Replay, SumLen, HubRing.From, HubRing.ReachesExactly, CatchUpFrom;
    NewHubInv(sessionId, config);
    RunKeepsInv(NewHub(sessionId, config), steps);
    var h := Run(NewHub(sessionId, config), steps);
    RingNumbers(h);
    WantedIsTail(h, fromSeq);
    hide *;
    HubRing.ReplayCovers(h.ring, fromSeq, budget);
  }

  lemma PublishOne(h: Hub, payload: seq<byte>, p: Chunk)
    requires Chunking.Chunks(h.sessionId, h.nextSeq, payload) == [p]
    ensures Publish(h, payload) == PublishChunk(h, p)
  {
    assert [p][..0] == [];
    assert PublishAll(h, []) == h;
    hide PublishChunk, Chunking.Chunks;
  }

  /** A payload no longer than a piece is published as one chunk that is charged its bytes. */
  lemma OneChunk(sessionId: string, seqNo: nat, payload: seq<byte>)
    requires 0 < |payload| <= Chunking.CHUNK_BYTES
    ensures var ps := Chunking.Chunks(sessionId, seqNo, payload);
            |ps| == 1 && ps[0].seqNo == seqNo && ChunkLen(ps[0]) == |payload|
  {
    assert Chunking.ChunkCount(|payload|) == 1;
    Chunking.ChunkIsSlice(sessionId, seqNo, payload, 0);
    assert |Chunking.Slice(payload, 0)| == |payload|;
    hide Chunking.Chunks, Chunking.Slice;
  }

  /** One publish and one request are enough: whatever the budget below the chunk's bytes, the whole chunk is returned. */
  lemma ReplayMayExceedBudget(sessionId: string, config: HubConfig, payload: seq<byte>, budget: nat)
    requires 0 < budget < |payload| <= Chunking.CHUNK_BYTES && |payload| <= config.ringBytes
    ensures var h := Run(NewHub(sessionId, config), [DoPublish(payload)]);
            SumLen(Replay(h.ring, 1, budget)) == |payload| > budget
  {
    var h0, steps := NewHub(sessionId, config), [DoPublish(payload)];
    OneChunk(sessionId, 1, payload);
    var p := Chunking.Chunks(sessionId, 1, payload)[0];
    PublishOne(h0, payload, p);
    assert steps[..0] == [] && Run(h0, []) == h0;
    HubRing.SumLenOne(p);
    hide ChunkLen, Publish, Chunking.Chunks, SumLen, Deliver;
    var h := PublishChunk(h0, p);
    assert Run(h0, steps) == h;
    assert h.ring == [p] by {
      assert [] + [p] == [p];
    }
    assert Replay([p][1..], 1, 0) == [];
    assert Replay([p], 1, budget) == [p];
  }

  lemma FirstSubscriber(sessionId: string, config: HubConfig)
    ensures Subscribe(NewHub(sessionId, config), None)
            == NewHub(sessionId, config).(nextSubId := 2, clients := map[1 := Client(Some(FRESH_ENTRY), [Channel(0, [], 0, 0)])])
  {
    assert [] + [Channel(0, [], 0, 0)] == [Channel(0, [], 0, 0)];
  }

  /** A chunk over an attached subscriber's whole budget becomes one notice of its own. */
  lemma DropOne(h: Hub, payload: seq<byte>)
    requires 1 in h.clients && h.clients[1].entry.Some? && |h.clients[1].channels| == 1
    requires var e := h.clients[1].entry.value; e.tx == Some(0) && e.parked.None? && !e.closed
    requires 0 < |payload| <= Chunking.CHUNK_BYTES && h.config.subQueueBytes < |payload|
    ensures var h', c := Publish(h, payload), h.clients[1];
            && 1 in h'.clients && h'.clients[1].entry.Some? && h'.config == h.config && h'.nextSeq == h.nextSeq + 1
            && h'.clients[1].entry.value == c.entry.value.(pendingGap := h'.clients[1].entry.value.pendingGap)
            && h'.clients[1].channels
               == [c.channels[0].(sent := c.channels[0].sent + [Gap(h.sessionId, h.nextSeq, h.nextSeq, |payload|)])]
  {
    OneChunk(h.sessionId, h.nextSeq, payload);
    var p := Chunking.Chunks(h.sessionId, h.nextSeq, payload)[0];
    assert p.sessionId == h.sessionId by {
      Chunking.ChunkIsSlice(h.sessionId, h.nextSeq, payload, 0);
    }
    PublishOne(h, payload, p);
    hide ChunkLen, Publish, Chunking.Chunks, Fit, Widen;
  }

  /**
   Drops are not coalesced: two payloads in a row that a subscriber has no room for get it two
   notices, one a chunk.
   */
  lemma DropsAreNotCoalesced(sessionId: string, config: HubConfig, a: seq<byte>, b: seq<byte>)
    requires config.subQueueBytes < |a| <= Chunking.CHUNK_BYTES && config.subQueueBytes < |b| <= Chunking.CHUNK_BYTES
    ensures var h := Run(NewHub(sessionId, config), [DoSubscribe(None), DoPublish(a), DoPublish(b)]);
            && 1 in h.clients && |h.clients[1].channels| == 1
            && h.clients[1].channels[0].sent == [Gap(sessionId, 1, 1, |a|), Gap(sessionId, 2, 2, |b|)]
  {
    var h0, steps := NewHub(sessionId, config), [DoSubscribe(None), DoPublish(a), DoPublish(b)];
    assert steps[..2] == [DoSubscribe(None), DoPublish(a)] && steps[..2][..1] == [DoSubscribe(None)] && steps[..2][..1][..0] == [];
    assert Run(h0, []) == h0;
    var h1 := Subscribe(h0, None);
    assert Run(h0, steps[..2][..1]) == h1;
    FirstSubscriber(sessionId, config);
    hide Publish, Subscribe;
    var h2 := Publish(h1, a);
    assert Run(h0, steps[..2]) == h2;
    DropOne(h1, a);
    PublishKeepsSession(h1, a);
    DropOne(h2, b);
  }

  lemma PublishKeepsSession(h: Hub, payload: seq<byte>)
    requires 0 < |payload| <= Chunking.CHUNK_BYTES
    ensures Publish(h, payload).sessionId == h.sessionId
  {
    OneChunk(h.sessionId, h.nextSeq, payload);
    PublishOne(h, payload, Chunking.Chunks(h.sessionId, h.nextSeq, payload)[0]);
    hide Publish, Chunking.Chunks, Fit, Deliver;
  }

  lemma {:induction false} PushAllShape(c: Client, ps: seq<Chunk>, cap: nat)
    requires c.entry.Some? && c.entry.value.tx == Some(|c.channels| - 1) && c.channels != []
    ensures var c' := PushAll(c, ps, cap);
            c'.entry.Some? && c'.entry.value.tx == c.entry.value.tx && c'.entry.value.parked == c.entry.value.parked &&
            |c'.channels| == |c.channels| && Latest(c').start == Latest(c).start &&
            (forall k :: 0 <= k < |c.channels| - 1 ==> c'.channels[k] == c.channels[k]) &&
            Latest(c').taken == Latest(c).taken && Latest(c').acked == Latest(c).acked
  {
    hide ChunkLen, Widen;
    if ps != [] {
      PushAllShape(c, ps[..|ps| - 1], cap);
    }
  }

  /** Attaching opens one new channel, from the catch-up point, and keeps the old ones. */
  lemma AttachedAfter(h: Hub, e: SubEntry, channels: seq<Channel>, since: Option<nat>)
    requires HistoryOk(h) && HubRing.RingOk(h)
    ensures var c := Attach(h, e, channels, since);
            c.entry.Some? && c.entry.value.tx == Some(|channels|) && c.entry.value.parked.None? &&
            |c.channels| == |channels| + 1 && c.channels[..|channels|] == channels &&
            Latest(c).start == CatchUpFrom(h, since) && Latest(c).taken == 0 && Latest(c).acked == 0
  {
    BacklogIsTail(h, since);
    hide HistoryOk, HubRing.RingOk, PushAll, Backlog;
    var start := CatchUpFrom(h, since);
    var c := Client(Some(e.(tx := Some(|channels|), queuedBytes := 0, pendingGap := None, parked := None)),
                    channels + [Channel(start, [], 0, 0)]);
    PushAllShape(c, Backlog(h, since), h.config.subQueueBytes);
  }
}
