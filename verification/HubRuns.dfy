/** The invariant of the hub over every run of publishes, attachments, parks, evictions, closes and receives. */
module HubRuns {
  import opened Wrappers
  import opened HubModel
  import opened HubStreams
  import opened HubRing
  import Base64
  import Chunking

  /** A chunk that decodes, belongs to the session, and is charged what it decodes to. */
  ghost predicate GoodChunk(c: Chunk, sessionId: string) {
    c.sessionId == sessionId && c.DataBytes().Some? && ChunkLen(c) == |Chunking.ChunkBytes(c)|
  }

  ghost predicate HistoryOk(h: Hub) {
    && h.nextSeq == |h.history| + 1
    && Numbered(h.history)
    && forall k :: 0 <= k < |h.history| ==> GoodChunk(h.history[k], h.sessionId)
  }

  ghost predicate ClientsOk(h: Hub) {
    && h.nextSubId >= 1
    && (forall id :: id in h.clients <==> 1 <= id < h.nextSubId)
    && (forall id :: id in h.clients ==> Tracks(h.clients[id], h.history, |h.history|))
  }

  ghost predicate Inv(h: Hub) {
    HistoryOk(h) && RingOk(h) && ClientsOk(h)
  }

  lemma NewHubInv(sessionId: string, config: HubConfig)
    ensures Inv(NewHub(sessionId, config))
  {
  }

  lemma PublishKeepsClients(h: Hub, p: Chunk)
    requires ClientsOk(h) && Numbered(h.history + [p])
    ensures ClientsOk(PublishChunk(h, p))
  {
    hide Tracks, Deliver, Fit;
    var h' := PublishChunk(h, p);
    forall id | id in h'.clients ensures Tracks(h'.clients[id], h'.history, |h'.history|) {
      DeliverTracks(h.clients[id], h.history, p, h.config.subQueueBytes);
    }
  }

  lemma PublishChunkKeepsInv(h: Hub, p: Chunk)
    requires Inv(h) && p.seqNo == h.nextSeq && GoodChunk(p, h.sessionId)
    ensures Inv(PublishChunk(h, p))
    ensures PublishChunk(h, p).nextSeq == h.nextSeq + 1
  {
    hide RingOk, ClientsOk, Fit, Deliver, GoodChunk;
    PublishKeepsRing(h, p);
    PublishKeepsClients(h, p);
  }

  lemma {:induction false} PublishAllKeepsInv(h: Hub, ps: seq<Chunk>)
    requires Inv(h)
    requires forall k :: 0 <= k < |ps| ==> ps[k].seqNo == h.nextSeq + k && GoodChunk(ps[k], h.sessionId)
    ensures Inv(PublishAll(h, ps))
    ensures PublishAll(h, ps).nextSeq == h.nextSeq + |ps|
    ensures PublishAll(h, ps).history == h.history + ps
    ensures PublishAll(h, ps).sessionId == h.sessionId
  {
    hide Inv, GoodChunk, Fit, Deliver;
    if ps == [] {
      assert h.history + ps == h.history;
    } else {
      var front := ps[..|ps| - 1];
      PublishAllKeepsInv(h, front);
      PublishChunkKeepsInv(PublishAll(h, front), ps[|ps| - 1]);
      assert h.history + front + [ps[|ps| - 1]] == h.history + ps;
    }
  }

  /** Publishing a payload appends exactly its chunks to the history. */
  lemma PublishKeepsInv(h: Hub, payload: seq<byte>)
    requires Inv(h)
    ensures Inv(Publish(h, payload))
    ensures Publish(h, payload).history == h.history + Chunking.Chunks(h.sessionId, h.nextSeq, payload)
  {
    hide Inv, Base64.Decode, Base64.DecodedLen;
    var ps := Chunking.Chunks(h.sessionId, h.nextSeq, payload);
    forall k | 0 <= k < |ps| ensures GoodChunk(ps[k], h.sessionId) {
      Chunking.PieceIsGood(h.sessionId, h.nextSeq, payload, k);
    }
    hide *;
    PublishAllKeepsInv(h, ps);
  }

  lemma RingNumbers(h: Hub)
    requires HistoryOk(h) && RingOk(h)
    ensures forall k :: 0 <= k < |h.ring| ==> h.ring[k].seqNo == Evicted(h) + 1 + k
    ensures Consecutive(h.ring)
  {
    hide GoodChunk, SumLen;
    forall k | 0 <= k < |h.ring| ensures h.ring[k].seqNo == Evicted(h) + 1 + k {
      assert h.ring[k] == h.history[Evicted(h) + k];
    }
  }

  /** The backlog replayed to a subscriber is exactly the history from where it can be caught up. */
  lemma BacklogIsTail(h: Hub, since: Option<nat>)
    requires HistoryOk(h) && RingOk(h)
    ensures 0 <= CatchUpFrom(h, since) <= |h.history|
    ensures Backlog(h, since) == h.history[CatchUpFrom(h, since)..]
  {
    hide HistoryOk, SumLen, After;
    RingNumbers(h);
    match since
    case None =>
    case Some(s) =>
      AfterCuts(h.ring, Evicted(h) + 1, s);
      if Evicted(h) <= s <= |h.history| {
        assert h.ring[s - Evicted(h)..] == h.history[s..];
      }
  }

  lemma AttachTracks(h: Hub, e: SubEntry, channels: seq<Channel>, since: Option<nat>)
    requires HistoryOk(h) && RingOk(h) && !e.closed
    requires forall k :: 0 <= k < |channels| ==> ChannelOk(channels[k], h.history)
    ensures Tracks(Attach(h, e, channels, since), h.history, |h.history|)
  {
    BacklogIsTail(h, since);
    hide GoodChunk, RingOk, After, Push;
    var start := CatchUpFrom(h, since);
    var ch := Channel(start, [], 0, 0);
    var c := Client(Some(e.(tx := Some(|channels|), queuedBytes := 0, pendingGap := None, parked := None)), channels + [ch]);
    assert Tracks(c, h.history, start);
    PushAllTracks(c, h.history, start, |h.history|, h.config.subQueueBytes);
    assert h.history[start..|h.history|] == h.history[start..];
  }

  lemma SubscribeKeepsInv(h: Hub, since: Option<nat>)
    requires Inv(h)
    ensures Inv(Subscribe(h, since))
  {
    AttachTracks(h, FRESH_ENTRY, [], since);
    hide Tracks, Attach, HistoryOk, RingOk, ClientsOk;
    AddClient(h, Attach(h, FRESH_ENTRY, [], since));
    SameHistory(h, Subscribe(h, since));
  }

  lemma AddClient(h: Hub, c: Client)
    requires ClientsOk(h) && Tracks(c, h.history, |h.history|)
    ensures ClientsOk(h.(nextSubId := h.nextSubId + 1, clients := h.clients[h.nextSubId := c]))
  {
    hide Tracks;
  }

  /** History and ring invariants only look at the published side of the hub. */
  lemma SameHistory(h: Hub, h': Hub)
    requires HistoryOk(h) && RingOk(h)
    requires h' == h.(nextSubId := h'.nextSubId, clients := h'.clients)
    ensures HistoryOk(h') && RingOk(h')
  {
    hide GoodChunk, SumLen;
  }

  lemma ResumeKeepsInv(h: Hub, id: nat, since: Option<nat>)
    requires Inv(h)
    ensures Inv(Resume(h, id, since))
  {
    if CanResume(h, id) {
      var e, channels := h.clients[id].entry.value, h.clients[id].channels;
      AttachTracks(h, e, channels, since);
      hide *;
      UpdateKeepsInv(h, id, Attach(h, e, channels, since));
    }
  }

  /** Replacing one client's state by another tracked one keeps the invariant. */
  lemma UpdateKeepsInv(h: Hub, id: nat, c: Client)
    requires Inv(h) && id in h.clients && Tracks(c, h.history, |h.history|)
    ensures Inv(h.(clients := h.clients[id := c]))
  {
    hide Tracks, HistoryOk, RingOk;
    SameHistory(h, h.(clients := h.clients[id := c]));
  }

  lemma CloseKeepsInv(h: Hub)
    requires Inv(h)
    ensures Inv(Close(h))
  {
    hide GoodChunk, ChannelOk, TrailingGap;
  }

  lemma TakeTracks(c: Client, i: nat, history: seq<Chunk>, upTo: nat)
    requires Tracks(c, history, upTo)
    ensures Tracks(TakeOne(c, i), history, upTo)
  {
    hide TrailingGap;
    if CanTake(c, i) {
      assert ChannelOk(c.channels[i], history);
    }
  }

  lemma AckTracks(c: Client, i: nat, history: seq<Chunk>, upTo: nat)
    requires Tracks(c, history, upTo)
    ensures Tracks(AckOne(c, i), history, upTo)
  {
    hide TrailingGap;
    if CanAck(c, i) {
      assert ChannelOk(c.channels[i], history);
    }
  }

  lemma ParkTracks(c: Client, deadline: nat, history: seq<Chunk>, upTo: nat)
    requires Tracks(c, history, upTo)
    ensures Tracks(ParkClient(c, deadline), history, upTo)
  {
    hide TrailingGap, ChannelOk;
  }

  /** Every step keeps the invariant. */
  lemma StepKeepsInv(h: Hub, step: Step)
    requires Inv(h)
    ensures Inv(Apply(h, step))
  {
    var n := |h.history|;
    hide HistoryOk, RingOk, Tracks, Attach;
    match step
    case DoPublish(payload) => PublishKeepsInv(h, payload);
    case DoSubscribe(since) => SubscribeKeepsInv(h, since);
    case DoResume(id, since) => ResumeKeepsInv(h, id, since);
    case DoPark(id, now) =>
      if id in h.clients {
        ParkTracks(h.clients[id], now + h.config.parkDuration, h.history, n);
        UpdateKeepsInv(h, id, ParkClient(h.clients[id], now + h.config.parkDuration));
      }
    case DoEvict(id, now) =>
      if id in h.clients {
        EvictTracks(h.clients[id], h.history, n);
        UpdateKeepsInv(h, id, h.clients[id].(entry := None));
      }
    case DoClose => CloseKeepsInv(h);
    case DoTake(id, i) =>
      if id in h.clients {
        TakeTracks(h.clients[id], i, h.history, n);
        UpdateKeepsInv(h, id, TakeOne(h.clients[id], i));
      }
    case DoAck(id, i) =>
      if id in h.clients {
        AckTracks(h.clients[id], i, h.history, n);
        UpdateKeepsInv(h, id, AckOne(h.clients[id], i));
      }
  }

  lemma EvictTracks(c: Client, history: seq<Chunk>, upTo: nat)
    requires Tracks(c, history, upTo)
    ensures Tracks(c.(entry := None), history, upTo)
  {
  }

  /** Every run keeps the invariant. */
  lemma {:induction false} RunKeepsInv(h: Hub, steps: seq<Step>)
    requires Inv(h)
    ensures Inv(Run(h, steps))
  {
    if steps != [] {
      hide Inv, Apply;
      RunKeepsInv(h, steps[..|steps| - 1]);
      StepKeepsInv(Run(h, steps[..|steps| - 1]), steps[|steps| - 1]);
    }
  }
}
