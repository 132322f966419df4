/**
 When a chunk is delivered and when it is dropped: exactly as the bytes a subscriber has been sent
 and not acknowledged leave room for it.
 */
module HubRoom {
  import opened Wrappers
  import opened HubModel
  import opened HubStreams
  import opened HubRuns
  import opened HubDelivery
  import opened HubCharges
  import Chunking
  import HubResume
  import HubRing

  /**
   The k-th event of a channel delivers its chunk just when the decoded bytes of the outputs before
   it, from the `acked`-th on, and the chunk's own stay within the cap.
   */
  ghost predicate AsRoomAllows(ch: Channel, k: nat, history: seq<Chunk>, cap: nat)
    requires ch.acked <= k < |ch.sent| && ch.start + k < |history|
  {
    ch.sent[k].Output?
    <==> |DeliveredBytes(ch.sent[ch.acked..k])| + |Chunking.ChunkBytes(history[ch.start + k])| <= cap
  }

  /** `ch` is `ch0` with more events, each sent as room allowed. */
  ghost predicate Grew(ch0: Channel, ch: Channel, history: seq<Chunk>, cap: nat) {
    && ch0.sent <= ch.sent && ch.start == ch0.start && ch.taken == ch0.taken && ch.acked == ch0.acked <= |ch0.sent|
    && ch.start + |ch.sent| <= |history|
    && forall k :: |ch0.sent| <= k < |ch.sent| ==> AsRoomAllows(ch, k, history, cap)
  }

  /** The charge of events that describe good chunks is the number of bytes they deliver. */
  lemma {:induction false} ChargeIsBytes(events: seq<Event>, chunks: seq<Chunk>, sessionId: string)
    requires |events| == |chunks|
    requires forall k :: 0 <= k < |events| ==> Describes(events[k], chunks[k]) && GoodChunk(chunks[k], sessionId)
    ensures ChargeOf(events) == |DeliveredBytes(events)|
  {
    hide Describes, GoodChunk, ChunkLen, Chunking.ChunkBytes;
    if events != [] {
      var n := |events| - 1;
      ChargeIsBytes(events[..n], chunks[..n], sessionId);
      assert events == events[..n] + [events[n]];
      ChargeOfSnoc(events[..n], events[n]);
      EventChargeIsBytes(events[n], chunks[n], sessionId);
    }
  }

  lemma EventChargeIsBytes(e: Event, c: Chunk, sessionId: string)
    requires Describes(e, c) && GoodChunk(c, sessionId)
    ensures EventCharge(e) == if e.Output? then |Chunking.ChunkBytes(e.chunk)| else 0
  {
  }

  /** The unacknowledged bytes of an attached client are what its entry is charged. */
  lemma UnackedBytes(c: Client, history: seq<Chunk>, upTo: nat, cap: nat, sessionId: string)
    requires Tracks(c, history, upTo) && Charged(c, cap) && c.entry.Some? && c.entry.value.tx.Some?
    requires forall k :: 0 <= k < |history| ==> GoodChunk(history[k], sessionId)
    ensures c.entry.value.queuedBytes == |DeliveredBytes(Latest(c).sent[Latest(c).acked..])|
  {
    hide GoodChunk, TrailingGap, Describes, ChargeOf, DeliveredBytes;
    var ch := Latest(c);
    assert ChannelOk(ch, history);
    var chunks := history[ch.start + ch.acked..ch.start + |ch.sent|];
    forall k | 0 <= k < |ch.sent| - ch.acked
      ensures Describes(ch.sent[ch.acked..][k], chunks[k]) && GoodChunk(chunks[k], sessionId)
    {
      assert ch.sent[ch.acked..][k] == ch.sent[ch.acked + k];
      assert chunks[k] == history[ch.start + (ch.acked + k)];
    }
    ChargeIsBytes(ch.sent[ch.acked..], chunks, sessionId);
  }

  /** What a push does to an attached client's newest channel. */
  lemma PushSends(c: Client, history: seq<Chunk>, upTo: nat, cap: nat, sessionId: string)
    requires Tracks(c, history, upTo) && Charged(c, cap) && c.entry.Some? && c.entry.value.tx.Some?
    requires upTo < |history| && forall k :: 0 <= k < |history| ==> GoodChunk(history[k], sessionId)
    ensures var c', p := Push(c, history[upTo], cap), history[upTo];
            && c'.entry.Some? && c'.entry.value.tx == c.entry.value.tx && c'.channels != []
            && c'.entry.value.closed == c.entry.value.closed && c'.entry.value.parked == c.entry.value.parked
            && Latest(c') == Latest(c).(sent := Latest(c).sent + [Latest(c').sent[|Latest(c).sent|]])
            && (Latest(c').sent[|Latest(c).sent|].Output?
                <==> |DeliveredBytes(Latest(c).sent[Latest(c).acked..])| + |Chunking.ChunkBytes(p)| <= cap)
  {
    UnackedBytes(c, history, upTo, cap, sessionId);
    assert GoodChunk(history[upTo], sessionId);
    hide ChannelOk, TrailingGap, Widen, DeliveredBytes, ChargeOf, ChunkLen, Chunking.ChunkBytes;
  }

  lemma GrewByOne(ch0: Channel, ch: Channel, e: Event, history: seq<Chunk>, cap: nat)
    requires Grew(ch0, ch, history, cap) && ch.start + |ch.sent| < |history|
    requires e.Output?
             <==> |DeliveredBytes(ch.sent[ch.acked..])| + |Chunking.ChunkBytes(history[ch.start + |ch.sent|])| <= cap
    ensures Grew(ch0, ch.(sent := ch.sent + [e]), history, cap)
  {
    hide DeliveredBytes, Chunking.ChunkBytes;
    var ch' := ch.(sent := ch.sent + [e]);
    forall k | |ch0.sent| <= k < |ch'.sent| ensures AsRoomAllows(ch', k, history, cap) {
      assert ch'.sent[ch'.acked..k] == ch.sent[ch.acked..k];
      if k < |ch.sent| {
        assert AsRoomAllows(ch, k, history, cap);
      } else {
        assert ch.sent[ch.acked..k] == ch.sent[ch.acked..];
      }
    }
  }

  lemma GrewOnLonger(ch0: Channel, ch: Channel, history: seq<Chunk>, p: Chunk, cap: nat)
    requires Grew(ch0, ch, history, cap)
    ensures Grew(ch0, ch, history + [p], cap)
  {
    hide DeliveredBytes, Chunking.ChunkBytes;
    forall k | |ch0.sent| <= k < |ch.sent| ensures AsRoomAllows(ch, k, history + [p], cap) {
      assert AsRoomAllows(ch, k, history, cap);
      assert (history + [p])[ch.start + k] == history[ch.start + k];
    }
  }

  /** A client that publishes reach, whose newest channel has grown from `ch0` as room allowed. */
  ghost predicate Served(c: Client, ch0: Channel, history: seq<Chunk>, cap: nat) {
    c.entry.Some? && c.entry.value.tx.Some? && c.channels != [] && Grew(ch0, Latest(c), history, cap)
  }

  /** One more chunk of the history pushed to a served client. */
  lemma PushServes(c: Client, ch0: Channel, history: seq<Chunk>, upTo: nat, cap: nat, sessionId: string)
    requires Tracks(c, history, upTo) && Charged(c, cap) && Served(c, ch0, history, cap)
    requires upTo < |history| && forall k :: 0 <= k < |history| ==> GoodChunk(history[k], sessionId)
    ensures Served(Push(c, history[upTo], cap), ch0, history, cap)
  {
    assert Latest(c).start + |Latest(c).sent| == upTo;
    PushSends(c, history, upTo, cap, sessionId);
    hide GoodChunk, Tracks, Charged, Push, Grew, DeliveredBytes, Chunking.ChunkBytes;
    GrewByOne(ch0, Latest(c), Latest(Push(c, history[upTo], cap)).sent[|Latest(c).sent|], history, cap);
  }

  lemma {:induction false} PushAllServes(c: Client, ch0: Channel, history: seq<Chunk>, upTo: nat, n: nat, cap: nat,
                                         sessionId: string)
    requires Numbered(history) && Tracks(c, history, upTo) && Charged(c, cap) && Served(c, ch0, history, cap)
    requires upTo <= n <= |history| && forall k :: 0 <= k < |history| ==> GoodChunk(history[k], sessionId)
    ensures Served(PushAll(c, history[upTo..n], cap), ch0, history, cap)
    decreases n
  {
    hide Tracks, Push, Numbered, Served, Charged, GoodChunk;
    if upTo < n {
      var ps := history[upTo..n];
      assert ps[..|ps| - 1] == history[upTo..n - 1];
      assert ps[|ps| - 1] == history[n - 1];
      PushAllServes(c, ch0, history, upTo, n - 1, cap, sessionId);
      PushAllTracks(c, history, upTo, n - 1, cap);
      TrackedSendsOnLatest(c, history, upTo);
      PushAllCharged(c, history[upTo..n - 1], cap);
      PushServes(PushAll(c, history[upTo..n - 1], cap), ch0, history, n - 1, cap, sessionId);
    }
  }

  /** A fresh channel replays the ring from where the client can be caught up, each chunk as room allows. */
  lemma AttachServes(h: Hub, e: SubEntry, channels: seq<Channel>, since: Option<nat>)
    requires Inv(h) && !e.closed && forall k :: 0 <= k < |channels| ==> ChannelOk(channels[k], h.history)
    ensures 0 <= CatchUpFrom(h, since) <= |h.history|
    ensures Served(Attach(h, e, channels, since), Channel(CatchUpFrom(h, since), [], 0, 0), h.history, h.config.subQueueBytes)
  {
    BacklogIsTail(h, since);
    hide HubRing.RingOk, ClientsOk, GoodChunk, CatchUpFrom, Backlog, PushAll, DeliveredBytes;
    var start := CatchUpFrom(h, since);
    var ch := Channel(start, [], 0, 0);
    var c := Client(Some(e.(tx := Some(|channels|), queuedBytes := 0, pendingGap := None, parked := None)), channels + [ch]);
    assert Tracks(c, h.history, start);
    assert Latest(c) == ch;
    PushAllServes(c, ch, h.history, start, |h.history|, h.config.subQueueBytes, h.sessionId);
    assert h.history[start..|h.history|] == h.history[start..];
  }

  // Publishing.

  /** Fan-out of one published chunk. */
  lemma PublishChunkServes(h: Hub, p: Chunk, id: nat, ch0: Channel)
    requires Inv(h) && AllCharged(h) && p.seqNo == h.nextSeq && GoodChunk(p, h.sessionId)
    requires id in h.clients && Served(h.clients[id], ch0, h.history, h.config.subQueueBytes)
    ensures id in PublishChunk(h, p).clients
    ensures Served(PublishChunk(h, p).clients[id], ch0, h.history + [p], h.config.subQueueBytes)
  {
    var c, cap, longer := h.clients[id], h.config.subQueueBytes, h.history + [p];
    assert Tracks(c, h.history, |h.history|);
    TracksGrows(c, h.history, |h.history|, p);
    GrewOnLonger(ch0, Latest(c), h.history, p, cap);
    ChargedOf(h, id);
    assert forall k :: 0 <= k < |longer| ==> GoodChunk(longer[k], h.sessionId);
    assert c.entry.value.parked.None? && !c.entry.value.closed;
    hide Inv, GoodChunk, Tracks, Charged, AllCharged, Push, Grew, Fit;
    PushServes(c, ch0, longer, |h.history|, cap, h.sessionId);
  }

  lemma {:induction false} PublishAllServes(h: Hub, ps: seq<Chunk>, id: nat, ch0: Channel)
    requires Inv(h) && AllCharged(h)
    requires forall k :: 0 <= k < |ps| ==> ps[k].seqNo == h.nextSeq + k && GoodChunk(ps[k], h.sessionId)
    requires id in h.clients && Served(h.clients[id], ch0, h.history, h.config.subQueueBytes)
    ensures Inv(PublishAll(h, ps)) && AllCharged(PublishAll(h, ps)) && PublishAll(h, ps).config == h.config
    ensures id in PublishAll(h, ps).clients
    ensures Served(PublishAll(h, ps).clients[id], ch0, PublishAll(h, ps).history, h.config.subQueueBytes)
  {
    PublishAllKeepsInv(h, ps);
    forall j | j in h.clients ensures SendsOnLatest(h.clients[j]) {
      TrackedSendsOnLatest(h.clients[j], h.history, |h.history|);
    }
    PublishAllCharged(h, ps);
    hide Inv, AllCharged, GoodChunk, Served, Fit, Deliver;
    if ps != [] {
      var front := ps[..|ps| - 1];
      PublishAllServes(h, front, id, ch0);
      PublishAllKeepsInv(h, front);
      PublishChunkServes(PublishAll(h, front), ps[|ps| - 1], id, ch0);
    }
  }

  /** An attached client's newest channel, before anything is added to it. */
  lemma AttachedIsServed(h: Hub, id: nat)
    requires Inv(h) && Attached(h, id)
    ensures h.clients[id].channels != []
    ensures Served(h.clients[id], Latest(h.clients[id]), h.history, h.config.subQueueBytes)
  {
    hide HistoryOk, HubRing.RingOk, TrailingGap, ChargeOf, AsRoomAllows;
    var c := h.clients[id];
    assert Tracks(c, h.history, |h.history|);
    assert ChannelOk(Latest(c), h.history);
  }

  /** Publishing to an attached subscriber whose account is exact. */
  lemma PublishServes(h: Hub, payload: seq<byte>, id: nat)
    requires Inv(h) && AllCharged(h) && Attached(h, id)
    ensures h.clients[id].channels != []
    ensures Attached(Publish(h, payload), id)
    ensures Served(Publish(h, payload).clients[id], Latest(h.clients[id]), Publish(h, payload).history, h.config.subQueueBytes)
  {
    AttachedIsServed(h, id);
    var ps := Chunking.Chunks(h.sessionId, h.nextSeq, payload);
    forall k | 0 <= k < |ps| ensures GoodChunk(ps[k], h.sessionId) {
      PieceGood(h.sessionId, h.nextSeq, payload, k);
    }
    hide Inv, AllCharged, GoodChunk, Grew, PublishAll, Chunking.Chunks;
    PublishAllServes(h, ps, id, Latest(h.clients[id]));
  }

  lemma PieceGood(sessionId: string, startSeq: nat, payload: seq<byte>, k: nat)
    requires k < Chunking.ChunkCount(|payload|)
    ensures GoodChunk(Chunking.Chunks(sessionId, startSeq, payload)[k], sessionId)
  {
    Chunking.PieceIsGood(sessionId, startSeq, payload, k);
  }

  /**
   In every run without acknowledgements from a replaced receiver, each chunk of a payload
   published to an attached subscriber is delivered if and only if its bytes and those sent on its
   newest channel and not acknowledged fit the budget; otherwise it is dropped with a notice.
   */
  lemma DeliveredIffRoom(sessionId: string, config: HubConfig, steps: seq<Step>, payload: seq<byte>, id: nat)
    requires NoStaleAcks(NewHub(sessionId, config), steps) && Attached(Run(NewHub(sessionId, config), steps), id)
    ensures var h, h' := Run(NewHub(sessionId, config), steps), Run(NewHub(sessionId, config), steps + [DoPublish(payload)]);
            && h.clients[id].channels != [] && Attached(h', id) && h'.clients[id].channels != []
            && var ch0, ch := Latest(h.clients[id]), Latest(h'.clients[id]);
               Grew(ch0, ch, h'.history, config.subQueueBytes) && Continues(ch.sent, ch.start, h'.history)
  {
    var h0 := NewHub(sessionId, config);
    var h := Run(h0, steps);
    ExactAccounts(sessionId, config, steps);
    RunSnoc(h0, steps, DoPublish(payload));
    PublishKeepsInv(h, payload);
    hide Run, NewHub, Inv, AllCharged, Publish, NoStaleAcks, Grew, Continues;
    PublishServes(h, payload, id);
    AttachedContinues(Publish(h, payload), id);
  }

  /** Without acknowledgements from a replaced receiver a run keeps every account exact. */
  lemma ExactAccounts(sessionId: string, config: HubConfig, steps: seq<Step>)
    requires NoStaleAcks(NewHub(sessionId, config), steps)
    ensures var h := Run(NewHub(sessionId, config), steps); Inv(h) && AllCharged(h) && h.config == config
  {
    var h0 := NewHub(sessionId, config);
    NewHubInv(sessionId, config);
    assert AllCharged(h0);
    hide Run, Inv, AllCharged, NoStaleAcks;
    RunKeepsInv(h0, steps);
    ExactIffNoStaleAcks(h0, steps);
    AlwaysChargedNow(h0, steps);
    HubResume.RunKeepsConfig(h0, steps);
  }

  lemma {:induction false} DeliveredConcat(a: seq<Event>, b: seq<Event>)
    ensures DeliveredBytes(a + b) == DeliveredBytes(a) + DeliveredBytes(b)
  {
    hide Chunking.ChunkBytes;
    if b == [] {
      assert a + b == a;
    } else {
      DeliveredConcat(a, b[..|b| - 1]);
      assert (a + b)[..|a + b| - 1] == a + b[..|b| - 1];
    }
  }

  /** Up to any event, no more is delivered than was published. */
  lemma DeliveredAtMost(ch: Channel, history: seq<Chunk>, sessionId: string, from: nat, k: nat)
    requires ChannelOk(ch, history) && from <= k < |ch.sent|
    requires forall j :: 0 <= j < |history| ==> GoodChunk(history[j], sessionId)
    ensures |DeliveredBytes(ch.sent[from..k])| + |Chunking.ChunkBytes(history[ch.start + k])|
            <= |Chunking.DecodedBytes(history[ch.start + from..])|
  {
    hide GoodChunk, Describes, DeliveredBytes, DroppedBytes, NoGaps, Chunking.ChunkBytes, Chunking.DecodedBytes;
    var events, chunks := ch.sent[from..k], history[ch.start + from..ch.start + k];
    forall j | 0 <= j < k - from ensures Describes(events[j], chunks[j]) && GoodChunk(chunks[j], sessionId) {
      assert events[j] == ch.sent[from + j] && chunks[j] == history[ch.start + (from + j)];
    }
    StreamAccounts(events, chunks, sessionId);
    var rest := history[ch.start + k..];
    assert history[ch.start + from..] == chunks + rest && rest == [history[ch.start + k]] + rest[1..];
    Chunking.DecodedBytesConcat(chunks, rest);
    Chunking.DecodedBytesConcat([history[ch.start + k]], rest[1..]);
    Chunking.DecodedBytesOne(history[ch.start + k]);
  }

  /** When everything new fits beside what is not acknowledged, all of it is delivered. */
  lemma AllDelivered(ch0: Channel, ch: Channel, history: seq<Chunk>, cap: nat, sessionId: string)
    requires Grew(ch0, ch, history, cap) && ChannelOk(ch, history) && ch.start + |ch.sent| == |history|
    requires forall j :: 0 <= j < |history| ==> GoodChunk(history[j], sessionId)
    requires |DeliveredBytes(ch0.sent[ch0.acked..])| + |Chunking.DecodedBytes(history[ch.start + |ch0.sent|..])| <= cap
    ensures NoGaps(ch.sent[|ch0.sent|..])
    ensures DeliveredBytes(ch.sent[|ch0.sent|..]) == Chunking.DecodedBytes(history[ch.start + |ch0.sent|..])
  {
    hide GoodChunk, Describes, DeliveredBytes, DroppedBytes, Chunking.ChunkBytes, Chunking.DecodedBytes;
    var n := |ch0.sent|;
    var events, chunks := ch.sent[n..], history[ch.start + n..];
    forall j | 0 <= j < |events|
      ensures events[j].Output? && Describes(events[j], chunks[j]) && GoodChunk(chunks[j], sessionId)
    {
      var k := n + j;
      assert events[j] == ch.sent[k] && chunks[j] == history[ch.start + k];
      assert AsRoomAllows(ch, k, history, cap);
      assert ch.sent[ch.acked..k] == ch0.sent[ch0.acked..] + ch.sent[n..k];
      DeliveredConcat(ch0.sent[ch0.acked..], ch.sent[n..k]);
      DeliveredAtMost(ch, history, sessionId, n, k);
    }
    StreamAccounts(events, chunks, sessionId);
  }

  /** A subscriber with room for a whole payload gets all of it, byte for byte, and no gap. */
  lemma NoGapWithRoom(sessionId: string, config: HubConfig, steps: seq<Step>, payload: seq<byte>, id: nat)
    requires NoStaleAcks(NewHub(sessionId, config), steps) && Attached(Run(NewHub(sessionId, config), steps), id)
    ensures var h := Run(NewHub(sessionId, config), steps);
            && h.clients[id].channels != [] && Latest(h.clients[id]).acked <= |Latest(h.clients[id]).sent|
    ensures var h, h' := Run(NewHub(sessionId, config), steps), Run(NewHub(sessionId, config), steps + [DoPublish(payload)]);
            var ch0 := Latest(h.clients[id]);
            |DeliveredBytes(ch0.sent[ch0.acked..])| + |payload| <= config.subQueueBytes ==>
              && Attached(h', id) && h'.clients[id].channels != []
              && ch0.sent <= Latest(h'.clients[id]).sent
              && NoGaps(Latest(h'.clients[id]).sent[|ch0.sent|..])
              && DeliveredBytes(Latest(h'.clients[id]).sent[|ch0.sent|..]) == payload
  {
    var h0 := NewHub(sessionId, config);
    var h := Run(h0, steps);
    var h' := Run(h0, steps + [DoPublish(payload)]);
    DeliveredIffRoom(sessionId, config, steps, payload, id);
    ExactAccounts(sessionId, config, steps);
    RunSnoc(h0, steps, DoPublish(payload));
    PublishKeepsInv(h, payload);
    AttachedContinues(h, id);
    HubResume.LatestOk(h', id);
    FreshBytes(h, payload);
    var ch0, ch := Latest(h.clients[id]), Latest(h'.clients[id]);
    assert forall j :: 0 <= j < |h'.history| ==> GoodChunk(h'.history[j], h'.sessionId);
    hide Run, NewHub, Inv, NoStaleAcks, AllCharged, Publish, ChannelOk, GoodChunk, DeliveredBytes, Chunking.DecodedBytes, AsRoomAllows;
    assert h'.history[ch.start + |ch0.sent|..] == h'.history[|h.history|..];
    if |DeliveredBytes(ch0.sent[ch0.acked..])| + |payload| <= config.subQueueBytes {
      AllDelivered(ch0, ch, h'.history, config.subQueueBytes, h'.sessionId);
    }
  }

  /** The chunks a publish adds carry its payload. */
  lemma FreshBytes(h: Hub, payload: seq<byte>)
    requires Inv(h)
    ensures |h.history| <= |Publish(h, payload).history|
    ensures Chunking.DecodedBytes(Publish(h, payload).history[|h.history|..]) == payload
  {
    hide Inv, Publish, Chunking.Chunks, Chunking.DecodedBytes;
    PublishKeepsInv(h, payload);
    var cs := Chunking.Chunks(h.sessionId, h.nextSeq, payload);
    assert Publish(h, payload).history[|h.history|..] == cs;
    Chunking.ChunksCarryPayload(h.sessionId, h.nextSeq, payload);
  }

  // Catching up.

  /** The step gives `id` a fresh channel: a subscribe that is given the number, or a resume of a registered id. */
  predicate Attaches(h: Hub, step: Step, id: nat, since: Option<nat>) {
    || (step == DoSubscribe(since) && id == h.nextSubId)
    || (step == DoResume(id, since) && CanResume(h, id))
  }

  lemma AttachingServes(h: Hub, step: Step, id: nat, since: Option<nat>)
    requires Inv(h) && Attaches(h, step, id, since)
    ensures 0 <= CatchUpFrom(h, since) <= |h.history|
    ensures id in Apply(h, step).clients && Apply(h, step).history == h.history
    ensures Served(Apply(h, step).clients[id], Channel(CatchUpFrom(h, since), [], 0, 0), h.history, h.config.subQueueBytes)
  {
    if step.DoSubscribe? {
      AttachServes(h, FRESH_ENTRY, [], since);
    } else {
      HubResume.NotClosed(h, id);
      assert Tracks(h.clients[id], h.history, |h.history|);
      AttachServes(h, h.clients[id].entry.value, h.clients[id].channels, since);
    }
    hide Inv, Attach, Served, CatchUpFrom, Tracks;
  }

  /**
   In every run, a subscriber that attaches, fresh or resuming, starts with no number at the end of
   the history, and with a number right after it or at the oldest chunk still held; from there each
   chunk replayed to it is delivered if and only if it fits the budget beside those delivered before.
   */
  lemma ReplayedIffRoom(sessionId: string, config: HubConfig, steps: seq<Step>, step: Step, id: nat, since: Option<nat>)
    requires Attaches(Run(NewHub(sessionId, config), steps), step, id, since)
    ensures var h, h' := Run(NewHub(sessionId, config), steps), Run(NewHub(sessionId, config), steps + [step]);
            && Attached(h', id) && h'.clients[id].channels != [] && h'.history == h.history
            && var ch := Latest(h'.clients[id]);
               && ch.taken == ch.acked == 0 && Continues(ch.sent, ch.start, h'.history)
               && ch.start == (if since.None? || since.value > |h.history| then |h.history|
                               else if since.value < Evicted(h) then Evicted(h) else since.value)
               && forall k :: 0 <= k < |ch.sent| ==> AsRoomAllows(ch, k, h'.history, config.subQueueBytes)
  {
    var h0 := NewHub(sessionId, config);
    var h := Run(h0, steps);
    NewHubInv(sessionId, config);
    RunKeepsInv(h0, steps);
    HubResume.RunKeepsConfig(h0, steps);
    RunSnoc(h0, steps, step);
    StartOf(h, since);
    AttachingServes(h, step, id, since);
    StepKeepsInv(h, step);
    hide Run, NewHub, Inv, Apply, Attaches, Continues, CatchUpFrom, AsRoomAllows;
    AttachedContinues(Apply(h, step), id);
  }

  lemma StartOf(h: Hub, since: Option<nat>)
    requires Inv(h)
    ensures CatchUpFrom(h, since) == if since.None? || since.value > |h.history| then |h.history|
                                     else if since.value < Evicted(h) then Evicted(h) else since.value
  {
    hide HistoryOk, ClientsOk, SumLen;
  }

  lemma CatchUpDelivered(ch: Channel, history: seq<Chunk>, cap: nat, sessionId: string)
    requires ChannelOk(ch, history) && ch.taken == ch.acked == 0 && ch.start + |ch.sent| == |history|
    requires forall j :: 0 <= j < |history| ==> GoodChunk(history[j], sessionId)
    requires forall k :: 0 <= k < |ch.sent| ==> AsRoomAllows(ch, k, history, cap)
    requires |Chunking.DecodedBytes(history[ch.start..])| <= cap
    ensures NoGaps(ch.sent) && DeliveredBytes(ch.sent) == Chunking.DecodedBytes(history[ch.start..])
  {
    hide GoodChunk, Chunking.DecodedBytes, AsRoomAllows, Describes;
    AllDelivered(Channel(ch.start, [], 0, 0), ch, history, cap, sessionId);
    assert ch.sent[0..] == ch.sent;
  }

  /** A subscriber whose budget holds all it has to catch up with gets all of it, byte for byte, and no gap. */
  lemma NoGapInCatchUp(sessionId: string, config: HubConfig, steps: seq<Step>, step: Step, id: nat, since: Option<nat>)
    requires Attaches(Run(NewHub(sessionId, config), steps), step, id, since)
    ensures var h' := Run(NewHub(sessionId, config), steps + [step]);
            && Attached(h', id) && h'.clients[id].channels != []
            && var ch := Latest(h'.clients[id]);
               && ch.start <= |h'.history|
               && (|Chunking.DecodedBytes(h'.history[ch.start..])| <= config.subQueueBytes ==>
                     NoGaps(ch.sent) && DeliveredBytes(ch.sent) == Chunking.DecodedBytes(h'.history[ch.start..]))
  {
    var h0 := NewHub(sessionId, config);
    var h' := Run(h0, steps + [step]);
    ReplayedIffRoom(sessionId, config, steps, step, id, since);
    NewHubInv(sessionId, config);
    RunKeepsInv(h0, steps + [step]);
    HubResume.LatestOk(h', id);
    assert forall j :: 0 <= j < |h'.history| ==> GoodChunk(h'.history[j], h'.sessionId);
    var ch := Latest(h'.clients[id]);
    hide *;
    if |Chunking.DecodedBytes(h'.history[ch.start..])| <= config.subQueueBytes {
      CatchUpDelivered(ch, h'.history, config.subQueueBytes, h'.sessionId);
    }
  }
}
