/** The hub itself: its fields, updated in place under one lock, refine the specification in HubModel. */
module OutputHubs {
  import opened Wrappers
  import opened HubModel
  import Chunking
  import HubRing
  import HubRuns
  import HubStreams

  /** A receiver: the subscription's id and which of its channels it reads. */
  datatype Subscription = Subscription(id: nat, channel: nat)

  /** What a receive yields: an event, nothing yet, or the end of a drained channel whose sender is gone. */
  datatype Received = Got(event: Event) | Waiting | Ended

  class OutputHub {
    const config: HubConfig
    const sessionId: string
    var nextSeq: nat
    var ring: seq<Chunk>
    var ringBytes: nat
    var subs: map<nat, SubEntry>
    var nextSubId: nat
    /** The channels between the registry's senders and the handles' receivers, per id, oldest first. */
    var channels: map<nat, seq<Channel>>
    ghost var history: seq<Chunk>
    ghost var closedAt: nat

    function ClientAt(id: nat): Client
      reads this
      requires id in channels
    {
      Client(if id in subs then Some(subs[id]) else None, channels[id])
    }

    function Clients(): map<nat, Client>
      reads this
    {
      map id | id in channels :: ClientAt(id)
    }

    ghost function View(): Hub
      reads this
    {
      Hub(config, sessionId, nextSeq, ring, nextSubId, Clients(), history, closedAt)
    }

    /** The byte counter is exact, so its saturating subtraction never clamps; the other fields agree on what they count. */
    ghost predicate Valid()
      reads this
    {
      && ringBytes == SumLen(ring)
      && SendersExist()
      && nextSeq == |history| + 1 && |ring| <= |history|
      && forall id :: id in channels ==> id < nextSubId
    }

    constructor (sessionId: string, config: HubConfig)
      ensures Valid() && View() == NewHub(sessionId, config)
    {
      this.config, this.sessionId := config, sessionId;
      nextSeq, ring, ringBytes := 1, [], 0;
      subs, nextSubId, channels := map[], 1, map[];
      history, closedAt := [], 0;
    }

    /** Every entry's sender is one of its channels. */
    ghost predicate SendersExist()
      reads this
    {
      && subs.Keys <= channels.Keys
      && forall id :: id in subs && subs[id].tx.Some? ==> subs[id].tx.value < |channels[id]|
    }

    /** Queues a chunk for one registered subscriber, or a gap notice in its place. */
    method PushToSub(id: nat, p: Chunk, cap: nat)
      requires SendersExist() && id in subs
      modifies this`subs, this`channels
      ensures SendersExist() && subs.Keys == old(subs.Keys) && channels.Keys == old(channels.Keys)
      ensures ClientAt(id) == Push(old(ClientAt(id)), p, cap)
      ensures forall j :: j in channels && j != id ==> ClientAt(j) == old(ClientAt(j))
    {
      hide ChunkLen, Widen;
      var entry := subs[id];
      if entry.tx.None? {
        return;
      }
      var tx := entry.tx.value;
      var wouldOverflow := entry.queuedBytes + ChunkLen(p) > cap;
      if !wouldOverflow {
        entry := entry.(pendingGap := None, queuedBytes := entry.queuedBytes + ChunkLen(p));
        channels := channels[id := Send(channels[id], tx, Output(p))];
      } else {
        entry := entry.(pendingGap := Some(Widen(entry.pendingGap, p)));
        channels := channels[id := Send(channels[id], tx, GapFor(p))];
      }
      subs := subs[id := entry];
    }

    /** Offers a chunk to every subscriber that is neither closed nor parked, in any order. */
    method FanOut(p: Chunk)
      requires SendersExist()
      modifies this`subs, this`channels
      ensures SendersExist() && channels.Keys == old(channels.Keys)
      ensures Clients() == map id | id in old(channels) :: Deliver(old(ClientAt(id)), p, config.subQueueBytes)
    {
      ghost var before := Clients();
      var todo := subs.Keys;
      assert subs.Keys <= channels.Keys;
      hide Push, SendersExist;
      while todo != {}
        invariant SendersExist()
        invariant todo <= subs.Keys <= channels.Keys == before.Keys
        invariant forall id :: id in before ==>
          ClientAt(id) == if id in todo then before[id] else Deliver(before[id], p, config.subQueueBytes)
        decreases |todo|
      {
        var id :| id in todo;
        var entry := subs[id];
        assert before[id] == ClientAt(id);
        if !entry.closed && entry.parked.None? {
          PushToSub(id, p, config.subQueueBytes);
        }
        todo := todo - {id};
      }
    }

    /** Appends a chunk to the ring and evicts from the front until the ring fits its budget. */
    method PushRing(p: Chunk)
      requires ringBytes == SumLen(ring)
      modifies this`ring, this`ringBytes
      ensures ring == Fit(old(ring) + [p], config.ringBytes)
      ensures ringBytes == SumLen(ring) && |ring| <= |old(ring)| + 1
    {
      hide ChunkLen;
      HubRing.SumLenConcat(ring, [p]);
      HubRing.SumLenOne(p);
      ring := ring + [p];
      ringBytes := ringBytes + ChunkLen(p);
      while ringBytes > config.ringBytes
        invariant Fit(ring, config.ringBytes) == Fit(old(ring) + [p], config.ringBytes)
        invariant ringBytes == SumLen(ring) && |ring| <= |old(ring)| + 1
        decreases |ring|
      {
        var evicted := ring[0];
        assert ringBytes >= ChunkLen(evicted);
        ring := ring[1..];
        ringBytes := SaturatingSub(ringBytes, ChunkLen(evicted));
      }
    }

    /** Chunks a payload, numbers the chunks, rings them and fans them out; returns the first and last number used. */
    method PublishPayload(payload: seq<byte>) returns (first: nat, last: nat)
      requires Valid()
      modifies this
      ensures Valid() && View() == Publish(old(View()), payload)
      ensures first == old(nextSeq) && last + 1 == nextSeq
    {
      first := nextSeq;
      last := first;
      var chunks := Chunking.ChunkSessionOutput(sessionId, first, payload);
      ghost var start := View();
      var n := 0;
      while n < |chunks|
        invariant n <= |chunks| && Valid()
        invariant View() == PublishAll(start, chunks[..n])
        invariant nextSeq == first + n
        invariant n > 0 ==> last + 1 == nextSeq
      {
        AppendAndFanOut(chunks[n]);
        last := chunks[n].seqNo;
        assert chunks[..n + 1][..n] == chunks[..n];
        n := n + 1;
      }
      assert chunks[..n] == chunks;
    }

    /** One chunk: ring it, evict, fan it out. */
    method AppendAndFanOut(p: Chunk)
      requires Valid() && p.seqNo == nextSeq
      modifies this
      ensures Valid() && View() == PublishChunk(old(View()), p)
    {
      assert SendersExist();
      hide SumLen, Fit, Deliver, ChunkLen, SendersExist;
      PushRing(p);
      FanOut(p);
      nextSeq := p.seqNo + 1;
      history := history + [p];
    }

    /** Replays the ring's chunks newer than `since` into a freshly opened channel. */
    method CatchUp(id: nat, since: Option<nat>)
      requires SendersExist() && id in subs
      modifies this`subs, this`channels
      ensures SendersExist() && channels.Keys == old(channels.Keys)
      ensures ClientAt(id) == PushAll(old(ClientAt(id)),
                                      match since case None => [] case Some(s) => After(ring, s), config.subQueueBytes)
      ensures forall j :: j in channels && j != id ==> ClientAt(j) == old(ClientAt(j))
    {
      assert id in channels;
      NothingYet(ClientAt(id), config.subQueueBytes, if since.Some? then since.value else 0);
      hide Push, SendersExist, PushAll, After, ChunkLen;
      if since.Some? {
        var k := 0;
        ghost var sofar: seq<Chunk> := [];
        while k < |ring|
          invariant k <= |ring| && SendersExist() && id in subs && id in channels && channels.Keys == old(channels.Keys)
          invariant sofar == After(ring[..k], since.value)
          invariant ClientAt(id) == PushAll(old(ClientAt(id)), sofar, config.subQueueBytes)
          invariant forall j :: j in channels && j != id ==> ClientAt(j) == old(ClientAt(j))
        {
          HubRing.AfterSnoc(ring[..k], ring[k], since.value);
          assert ring[..k + 1] == ring[..k] + [ring[k]];
          if ring[k].seqNo > since.value {
            PushToSub(id, ring[k], config.subQueueBytes);
            PushAllSnoc(old(ClientAt(id)), sofar, ring[k], config.subQueueBytes);
            sofar := sofar + [ring[k]];
          }
          k := k + 1;
        }
        assert ring[..k] == ring;
      }
    }

    /** The number of chunks published before the first one a catch-up from `since` describes. */
    function StartOf(since: Option<nat>): (start: nat)
      reads this
      requires Valid()
      ensures start == CatchUpFrom(View(), since)
    {
      var newest := nextSeq - 1;
      match since
      case None => newest
      case Some(s) => if s < newest - |ring| then newest - |ring| else if s > newest then newest else s
    }

    /** Gives an id a fresh channel and a live entry, then catches it up; returns the channel's index. */
    method AttachClient(id: nat, entry: SubEntry, since: Option<nat>) returns (tx: nat)
      requires Valid()
      modifies this`subs, this`channels
      ensures SendersExist() && channels.Keys == old(channels.Keys) + {id} && id in channels
      ensures var prior := if id in old(channels) then old(channels[id]) else [];
              tx == |prior| && ClientAt(id) == Attach(old(View()), entry, prior, since)
      ensures forall j :: j in channels && j != id ==> ClientAt(j) == old(ClientAt(j))
    {
      hide SumLen, PushAll, After, CatchUpFrom;
      var prior := if id in channels then channels[id] else [];
      var start := StartOf(since);
      tx := |prior|;
      channels := channels[id := prior + [Channel(start, [], 0, 0)]];
      subs := subs[id := entry.(tx := Some(tx), queuedBytes := 0, pendingGap := None, parked := None)];
      CatchUp(id, since);
    }

    /** Registers a subscriber and primes its queue. */
    method Subscribe(since: Option<nat>) returns (sub: Subscription)
      requires Valid()
      modifies this
      ensures Valid() && View() == HubModel.Subscribe(old(View()), since)
      ensures sub == Subscription(old(nextSubId), 0)
    {
      hide SumLen, Attach;
      var id := nextSubId;
      var tx := AttachClient(id, FRESH_ENTRY, since);
      nextSubId := nextSubId + 1;
      sub := Subscription(id, tx);
    }

    /** Gives a registered subscriber a new channel and replays what it asks for. */
    method Reattach(id: nat, since: Option<nat>) returns (tx: nat)
      requires Valid() && id in subs && id in channels
      modifies this`subs, this`channels
      ensures Valid() && tx == |old(channels[id])|
      ensures View() == old(View()).(clients := old(Clients())[id := Attach(old(View()), old(subs[id]), old(channels[id]), since)])
    {
      hide SumLen, Attach, SendersExist;
      tx := AttachClient(id, subs[id], since);
      assert Clients() == old(Clients())[id := ClientAt(id)];
    }

    /** Re-attaches a known subscriber; None when the id is gone. */
    method Resume(id: nat, since: Option<nat>) returns (sub: Option<Subscription>)
      requires Valid()
      modifies this
      ensures Valid() && View() == HubModel.Resume(old(View()), id, since)
      ensures sub.Some? <==> CanResume(old(View()), id)
      ensures sub.Some? ==> sub.value == Subscription(id, |old(channels[id])|)
    {
      assert subs.Keys <= channels.Keys;
      if id !in subs {
        return None;
      }
      if subs[id].closed {
        return None;
      }
      hide SumLen, Attach, SendersExist;
      var tx := Reattach(id, since);
      hide Valid;
      sub := Some(Subscription(id, tx));
    }

    /** Marks a subscriber disconnected until `now` plus the grace period. */
    method ParkSub(id: nat, now: nat)
      requires Valid()
      modifies this`subs
      ensures Valid() && View() == Park(old(View()), id, now)
    {
      hide SumLen;
      if id in subs {
        var entry := subs[id];
        if entry.parked.None? && !entry.closed {
          subs := subs[id := entry.(parked := Some(now + config.parkDuration), tx := None)];
        }
      }
    }

    /** Removes a subscriber that is still parked at its deadline; reports whether it did. */
    method EvictIfStillParked(id: nat, now: nat) returns (evicted: bool)
      requires Valid()
      modifies this`subs
      ensures Valid() && View() == Evict(old(View()), id, now)
      ensures evicted <==> id in old(channels) && Evictable(old(ClientAt(id)), now)
    {
      hide SumLen;
      if id !in subs {
        return false;
      }
      evicted := match subs[id].parked case Some(deadline) => now >= deadline case None => false;
      if evicted {
        subs := subs - {id};
      }
    }

    /** Drops every subscriber and the ring. */
    method CloseHub()
      requires Valid()
      modifies this
      ensures Valid() && View() == Close(old(View()))
    {
      subs := map[];
      ring := [];
      ringBytes := 0;
      closedAt := |history|;
    }

    /** The ring's chunks from `fromSeq` on, until the byte budget is used up. */
    method ReplayRing(fromSeq: nat, maxBytes: nat) returns (out: seq<Chunk>)
      ensures out == Replay(ring, fromSeq, maxBytes)
    {
      hide ChunkLen;
      out := [];
      var budget := maxBytes;
      var k := 0;
      while k < |ring|
        invariant k <= |ring|
        invariant Replay(ring, fromSeq, maxBytes) == out + Replay(ring[k..], fromSeq, budget)
      {
        var c := ring[k];
        assert ring[k..][1..] == ring[k + 1..];
        if c.seqNo >= fromSeq {
          if budget == 0 {
            ReplayNothing(ring[k..], fromSeq);
            return;
          }
          out := out + [c];
          budget := SaturatingSub(budget, ChunkLen(c));
        }
        k := k + 1;
      }
    }

    /** The numbers still in the ring: none when it is empty, and otherwise from the first not evicted to the last published. */
    method RingRange() returns (range: Option<(nat, nat)>)
      ensures range.None? <==> ring == []
      ensures HubRuns.Inv(View()) ==> IsRange(View(), range)
    {
      range := if |ring| > 0 then Some((ring[0].seqNo, ring[|ring| - 1].seqNo)) else None;
      if HubRuns.Inv(View()) {
        RangeOfRing(View());
      }
      hide HubRuns.Inv, IsRange;
    }

    /** The channel half of a receive. */
    method TakeEvent(sub: Subscription) returns (r: Received)
      requires Valid() && sub.id in channels && sub.channel < |channels[sub.id]|
      modifies this`channels
      ensures Valid() && View() == Take(old(View()), sub.id, sub.channel)
      ensures r.Got? <==> CanTake(old(ClientAt(sub.id)), sub.channel)
      ensures r.Got? ==> var ch := old(channels[sub.id][sub.channel]); r.event == ch.sent[ch.taken]
      ensures r.Waiting? ==> sub.id in subs && subs[sub.id].tx == Some(sub.channel)
      ensures r.Ended? ==> !(sub.id in subs && subs[sub.id].tx == Some(sub.channel))
    {
      hide SumLen;
      var ch := channels[sub.id][sub.channel];
      if ch.taken < |ch.sent| {
        channels := channels[sub.id := channels[sub.id][sub.channel := ch.(taken := ch.taken + 1)]];
        return Got(ch.sent[ch.taken]);
      }
      r := if sub.id in subs && subs[sub.id].tx == Some(sub.channel) then Waiting else Ended;
    }

    /** The hub half of a receive: the oldest taken event's charge is given back. */
    method AckEvent(sub: Subscription)
      requires Valid() && sub.id in channels && CanAck(ClientAt(sub.id), sub.channel)
      modifies this`channels, this`subs
      ensures Valid() && View() == Ack(old(View()), sub.id, sub.channel)
    {
      hide SumLen, ChunkLen;
      var ch := channels[sub.id][sub.channel];
      var ev := ch.sent[ch.acked];
      channels := channels[sub.id := channels[sub.id][sub.channel := ch.(acked := ch.acked + 1)]];
      if sub.id in subs {
        var entry := subs[sub.id];
        subs := subs[sub.id := entry.(queuedBytes := SaturatingSub(entry.queuedBytes, EventCharge(ev)))];
      }
    }

    /** A receive with nothing else running in between: take an event, then acknowledge it. */
    method Recv(sub: Subscription) returns (r: Received)
      requires Valid() && sub.id in channels && sub.channel < |channels[sub.id]|
      requires var ch := channels[sub.id][sub.channel]; ch.acked == ch.taken
      modifies this`channels, this`subs
      ensures Valid()
      ensures View() == if r.Got? then Ack(Take(old(View()), sub.id, sub.channel), sub.id, sub.channel) else old(View())
      ensures r.Got? <==> CanTake(old(ClientAt(sub.id)), sub.channel)
      ensures r.Got? ==> var ch := old(channels[sub.id][sub.channel]); r.event == ch.sent[ch.taken]
    {
      hide SumLen, ChunkLen;
      r := TakeEvent(sub);
      if r.Got? {
        assert View().clients[sub.id] == TakeOne(old(ClientAt(sub.id)), sub.channel);
        assert ClientAt(sub.id) == View().clients[sub.id];
        AckEvent(sub);
      }
    }
  }

  /** Some chunk of the ring has the number `n`. */
  ghost predicate Holds(ring: seq<Chunk>, n: int) {
    exists k :: 0 <= k < |ring| && ring[k].seqNo == n
  }

  /** Chunks numbered on from `first` have exactly the numbers from the first's to the last's. */
  lemma RangeOfNumbers(ring: seq<Chunk>, first: int)
    requires forall k :: 0 <= k < |ring| ==> ring[k].seqNo == first + k
    ensures forall n :: Holds(ring, n) <==> first <= n < first + |ring|
  {
    forall n ensures Holds(ring, n) <==> first <= n < first + |ring| {
      if first <= n < first + |ring| {
        assert ring[n - first].seqNo == n;
      }
    }
  }

  /** The range runs from the first chunk not evicted to the last published, and the ring holds exactly the numbers in it. */
  ghost predicate IsRange(h: Hub, range: Option<(nat, nat)>) {
    match range
    case None => h.ring == []
    case Some(r) => r == (Evicted(h) + 1, h.nextSeq - 1) && forall n :: Holds(h.ring, n) <==> r.0 <= n <= r.1
  }

  lemma RangeOfRing(h: Hub)
    requires HubRuns.Inv(h)
    ensures IsRange(h, if |h.ring| > 0 then Some((h.ring[0].seqNo, h.ring[|h.ring| - 1].seqNo)) else None)
  {
    hide HubRing.RingOk, HubRuns.ClientsOk, HubRuns.GoodChunk, HubStreams.Numbered, HubRing.Consecutive, Holds;
    HubRuns.RingNumbers(h);
    RangeOfNumbers(h.ring, Evicted(h) + 1);
  }

  lemma NothingYet(c: Client, cap: nat, since: nat)
    ensures PushAll(c, [], cap) == c && After([], since) == []
  {
  }

  lemma PushAllSnoc(c: Client, ps: seq<Chunk>, p: Chunk, cap: nat)
    ensures PushAll(c, ps + [p], cap) == Push(PushAll(c, ps, cap), p, cap)
  {
    assert (ps + [p])[..|ps|] == ps;
    hide Push;
  }

  lemma ReplayNothing(ring: seq<Chunk>, fromSeq: nat)
    requires ring != [] && ring[0].seqNo >= fromSeq
    ensures Replay(ring, fromSeq, 0) == []
  {
  }
}
