/**
 The per-session output hub as a value and its operations as functions: the specification
 that the OutputHub class refines. Every operation holds the hub's one lock, so each is one
 atomic step; taking an event off a channel and acknowledging it are two steps, because the
 source re-takes the lock in between.
 */
module HubModel {
  import opened Wrappers
  import opened Payloads
  import Base64
  import Chunking

  type Chunk = SessionOutputParams

  /** The size charged for a chunk. Texts on which the source's subtraction would underflow are never published. */
  function ChunkLen(c: Chunk): nat {
    var n := Base64.DecodedLen(c.dataBase64);
    if n < 0 then 0 else n
  }

  datatype Event =
    | Output(chunk: Chunk)
    | Gap(sessionId: string, fromSeq: nat, toSeq: nat, droppedBytes: nat)

  /** The notice sent in place of a dropped chunk. */
  function GapFor(c: Chunk): Event {
    Gap(c.sessionId, c.seqNo, c.seqNo, ChunkLen(c))
  }

  /** Only outputs count against a subscriber's queue budget. */
  function EventCharge(e: Event): nat {
    if e.Output? then ChunkLen(e.chunk) else 0
  }

  datatype PendingGap = PendingGap(fromSeq: nat, toSeq: nat, droppedBytes: nat)

  datatype SubEntry = SubEntry(
    tx: Option<nat>,
    queuedBytes: nat,
    pendingGap: Option<PendingGap>,
    closed: bool,
    parked: Option<nat>)

  /**
   One unbounded channel: everything ever sent on it, how many events its receiver took off,
   and how many of those it acknowledged to the hub. `start` is the number of chunks that
   were published before the first one this channel describes.
   */
  datatype Channel = Channel(start: nat, sent: seq<Event>, taken: nat, acked: nat)

  /** One subscription id: its registry entry, if it still has one, and the channels it was given, oldest first. */
  datatype Client = Client(entry: Option<SubEntry>, channels: seq<Channel>)

  datatype HubConfig = HubConfig(ringBytes: nat, subQueueBytes: nat, parkDuration: nat)

  /** `history` is every chunk ever published; `closedAt` is its length when the hub was last closed. */
  datatype Hub = Hub(
    config: HubConfig,
    sessionId: string,
    nextSeq: nat,
    ring: seq<Chunk>,
    nextSubId: nat,
    clients: map<nat, Client>,
    history: seq<Chunk>,
    closedAt: nat)

  function NewHub(sessionId: string, config: HubConfig): Hub {
    Hub(config, sessionId, 1, [], 1, map[], [], 0)
  }

  function SumLen(cs: seq<Chunk>): nat {
    if cs == [] then 0 else ChunkLen(cs[0]) + SumLen(cs[1..])
  }

  /** What remains of the ring after evicting from the front until it fits. */
  function Fit(ring: seq<Chunk>, cap: nat): seq<Chunk> {
    if SumLen(ring) <= cap then ring else Fit(ring[1..], cap)
  }

  /** The ring's chunks newer than `since`, in order. */
  function After(ring: seq<Chunk>, since: nat): seq<Chunk> {
    if ring == [] then []
    else if ring[0].seqNo > since then [ring[0]] + After(ring[1..], since)
    else After(ring[1..], since)
  }

  /** The running description of the current burst of drops. */
  function Widen(g: Option<PendingGap>, p: Chunk): PendingGap {
    match g
    case None => PendingGap(p.seqNo, p.seqNo, ChunkLen(p))
    case Some(w) =>
      PendingGap(
        if p.seqNo < w.fromSeq then p.seqNo else w.fromSeq,
        if p.seqNo > w.toSeq then p.seqNo else w.toSeq,
        w.droppedBytes + ChunkLen(p))
  }

  /** Appends an event to the i-th channel. */
  function Send(channels: seq<Channel>, i: nat, e: Event): seq<Channel>
    requires i < |channels|
  {
    channels[i := channels[i].(sent := channels[i].sent + [e])]
  }

  /** Queues a chunk for one subscriber, or a gap notice when the chunk would overflow its budget. */
  function Push(c: Client, p: Chunk, cap: nat): Client {
    if c.entry.None? || c.entry.value.tx.None? || c.entry.value.tx.value >= |c.channels| then c
    else
      var e := c.entry.value;
      if e.queuedBytes + ChunkLen(p) <= cap then
        Client(Some(e.(pendingGap := None, queuedBytes := e.queuedBytes + ChunkLen(p))),
               Send(c.channels, e.tx.value, Output(p)))
      else
        Client(Some(e.(pendingGap := Some(Widen(e.pendingGap, p)))),
               Send(c.channels, e.tx.value, GapFor(p)))
  }

  /** Fan-out skips closed and parked subscribers. */
  function Deliver(c: Client, p: Chunk, cap: nat): Client {
    if c.entry.None? || c.entry.value.closed || c.entry.value.parked.Some? then c else Push(c, p, cap)
  }

  function PushAll(c: Client, ps: seq<Chunk>, cap: nat): Client {
    if ps == [] then c else Push(PushAll(c, ps[..|ps| - 1], cap), ps[|ps| - 1], cap)
  }

  function PublishChunk(h: Hub, p: Chunk): Hub {
    h.(ring := Fit(h.ring + [p], h.config.ringBytes),
       clients := map id | id in h.clients :: Deliver(h.clients[id], p, h.config.subQueueBytes),
       nextSeq := p.seqNo + 1,
       history := h.history + [p])
  }

  function PublishAll(h: Hub, ps: seq<Chunk>): Hub {
    if ps == [] then h else PublishChunk(PublishAll(h, ps[..|ps| - 1]), ps[|ps| - 1])
  }

  function Publish(h: Hub, payload: seq<byte>): Hub {
    PublishAll(h, Chunking.Chunks(h.sessionId, h.nextSeq, payload))
  }

  /** How many published chunks the ring no longer holds. */
  function Evicted(h: Hub): int {
    |h.history| - |h.ring|
  }

  /** Where a subscriber that has seen everything up to `since` can be caught up from. */
  function CatchUpFrom(h: Hub, since: Option<nat>): int {
    match since
    case None => |h.history|
    case Some(s) => if s < Evicted(h) then Evicted(h) else if s > |h.history| then |h.history| else s
  }

  function Backlog(h: Hub, since: Option<nat>): seq<Chunk> {
    match since case None => [] case Some(s) => After(h.ring, s)
  }

  const FRESH_ENTRY := SubEntry(Some(0), 0, None, false, None)

  /** Opens a fresh channel for a client and replays the ring's newer chunks into it. */
  function Attach(h: Hub, e: SubEntry, channels: seq<Channel>, since: Option<nat>): Client {
    var start := CatchUpFrom(h, since);
    var ch := Channel(if start < 0 then 0 else start, [], 0, 0);
    PushAll(
      Client(Some(e.(tx := Some(|channels|), queuedBytes := 0, pendingGap := None, parked := None)), channels + [ch]),
      Backlog(h, since), h.config.subQueueBytes)
  }

  function Subscribe(h: Hub, since: Option<nat>): Hub {
    h.(nextSubId := h.nextSubId + 1, clients := h.clients[h.nextSubId := Attach(h, FRESH_ENTRY, [], since)])
  }

  /** A resume succeeds when the id is still registered and not closed. */
  predicate CanResume(h: Hub, id: nat) {
    id in h.clients && h.clients[id].entry.Some? && !h.clients[id].entry.value.closed
  }

  function Resume(h: Hub, id: nat, since: Option<nat>): Hub {
    if CanResume(h, id)
    then h.(clients := h.clients[id := Attach(h, h.clients[id].entry.value, h.clients[id].channels, since)])
    else h
  }

  function ParkClient(c: Client, deadline: nat): Client {
    if c.entry.Some? && c.entry.value.parked.None? && !c.entry.value.closed
    then c.(entry := Some(c.entry.value.(parked := Some(deadline), tx := None)))
    else c
  }

  function Park(h: Hub, id: nat, now: nat): Hub {
    if id in h.clients
    then h.(clients := h.clients[id := ParkClient(h.clients[id], now + h.config.parkDuration)])
    else h
  }

  predicate Evictable(c: Client, now: nat) {
    c.entry.Some? && c.entry.value.parked.Some? && now >= c.entry.value.parked.value
  }

  function Evict(h: Hub, id: nat, now: nat): Hub {
    if id in h.clients && Evictable(h.clients[id], now)
    then h.(clients := h.clients[id := h.clients[id].(entry := None)])
    else h
  }

  function Close(h: Hub): Hub {
    h.(ring := [], closedAt := |h.history|,
       clients := map id | id in h.clients :: h.clients[id].(entry := None))
  }

  predicate CanTake(c: Client, i: nat) {
    i < |c.channels| && c.channels[i].taken < |c.channels[i].sent|
  }

  function TakeOne(c: Client, i: nat): Client {
    if CanTake(c, i)
    then c.(channels := c.channels[i := c.channels[i].(taken := c.channels[i].taken + 1)])
    else c
  }

  /** The receiver of the i-th channel takes the next event off it. */
  function Take(h: Hub, id: nat, i: nat): Hub {
    if id in h.clients then h.(clients := h.clients[id := TakeOne(h.clients[id], i)]) else h
  }

  predicate CanAck(c: Client, i: nat) {
    && i < |c.channels|
    && c.channels[i].acked < c.channels[i].taken
    && c.channels[i].acked < |c.channels[i].sent|
  }

  function AckOne(c: Client, i: nat): Client {
    if CanAck(c, i) then
      var ch := c.channels[i];
      var charge := EventCharge(ch.sent[ch.acked]);
      Client(
        if c.entry.None? then None
        else Some(c.entry.value.(queuedBytes := SaturatingSub(c.entry.value.queuedBytes, charge))),
        c.channels[i := ch.(acked := ch.acked + 1)])
    else c
  }

  /** The receiver of the i-th channel reports the oldest event it took: the charge goes back to the id, whatever channel it came from. */
  function Ack(h: Hub, id: nat, i: nat): Hub {
    if id in h.clients then h.(clients := h.clients[id := AckOne(h.clients[id], i)]) else h
  }

  datatype Step =
    | DoPublish(payload: seq<byte>)
    | DoSubscribe(since: Option<nat>)
    | DoResume(id: nat, since: Option<nat>)
    | DoPark(id: nat, now: nat)
    | DoEvict(id: nat, now: nat)
    | DoClose
    | DoTake(id: nat, channel: nat)
    | DoAck(id: nat, channel: nat)

  function Apply(h: Hub, step: Step): Hub {
    match step
    case DoPublish(payload) => Publish(h, payload)
    case DoSubscribe(since) => Subscribe(h, since)
    case DoResume(id, since) => Resume(h, id, since)
    case DoPark(id, now) => Park(h, id, now)
    case DoEvict(id, now) => Evict(h, id, now)
    case DoClose => Close(h)
    case DoTake(id, i) => Take(h, id, i)
    case DoAck(id, i) => Ack(h, id, i)
  }

  /** The hub after a run of steps. */
  function Run(h: Hub, steps: seq<Step>): Hub {
    if steps == [] then h else Apply(Run(h, steps[..|steps| - 1]), steps[|steps| - 1])
  }

  /** The chunks returned by an explicit replay request. */
  function Replay(ring: seq<Chunk>, fromSeq: nat, budget: nat): seq<Chunk> {
    if ring == [] then []
    else if ring[0].seqNo < fromSeq then Replay(ring[1..], fromSeq, budget)
    else if budget == 0 then []
    else [ring[0]] + Replay(ring[1..], fromSeq, SaturatingSub(budget, ChunkLen(ring[0])))
  }
}
