/**
 What every subscriber is sent: the describing relation between a channel and the published
 history, kept by every step of every run.
 */
module HubStreams {
  import opened Wrappers
  import opened HubModel

  /** An event accounts for a chunk by delivering it or by reporting exactly it as dropped. */
  predicate Describes(e: Event, c: Chunk) {
    e == Output(c) || e == GapFor(c)
  }

  /** The gap notices since the last output, merged. */
  function TrailingGap(sent: seq<Event>): Option<PendingGap> {
    if sent == [] || sent[|sent| - 1].Output? then None
    else
      var g := sent[|sent| - 1];
      match TrailingGap(sent[..|sent| - 1])
      case None => Some(PendingGap(g.fromSeq, g.toSeq, g.droppedBytes))
      case Some(w) => Some(PendingGap(w.fromSeq, g.toSeq, w.droppedBytes + g.droppedBytes))
  }

  /** A channel's k-th event describes the k-th chunk after the channel's start. */
  ghost predicate ChannelOk(ch: Channel, history: seq<Chunk>) {
    && ch.acked <= ch.taken <= |ch.sent|
    && ch.start + |ch.sent| <= |history|
    && forall k :: 0 <= k < |ch.sent| ==> Describes(ch.sent[k], history[ch.start + k])
  }

  /** The newest channel. */
  function Latest(c: Client): Channel
    requires c.channels != []
  {
    c.channels[|c.channels| - 1]
  }

  /**
   A client's bookkeeping is sound, and if it is attached its newest channel describes the
   history up to `upTo`. An entry is never marked closed, and has a sender exactly when it
   is not parked.
   */
  ghost predicate Tracks(c: Client, history: seq<Chunk>, upTo: nat) {
    && (forall k :: 0 <= k < |c.channels| ==> ChannelOk(c.channels[k], history))
    && (c.entry.Some? ==>
          && c.channels != []
          && !c.entry.value.closed
          && (c.entry.value.tx.Some? <==> c.entry.value.parked.None?)
          && (c.entry.value.tx.Some? ==>
                && c.entry.value.tx.value == |c.channels| - 1
                && Latest(c).start + |Latest(c).sent| == upTo
                && c.entry.value.pendingGap == TrailingGap(Latest(c).sent)))
  }

  ghost predicate Numbered(history: seq<Chunk>) {
    forall k :: 0 <= k < |history| ==> history[k].seqNo == k + 1
  }

  lemma TrailingGapSnoc(sent: seq<Event>, e: Event)
    ensures TrailingGap(sent + [e]) ==
            if e.Output? then None
            else match TrailingGap(sent)
                 case None => Some(PendingGap(e.fromSeq, e.toSeq, e.droppedBytes))
                 case Some(w) => Some(PendingGap(w.fromSeq, e.toSeq, w.droppedBytes + e.droppedBytes))
  {
    assert (sent + [e])[..|sent|] == sent;
  }

  /** A burst of drops lies within the chunks its channel has described. */
  lemma {:induction false} TrailingGapRange(sent: seq<Event>, history: seq<Chunk>, start: nat)
    requires Numbered(history) && start + |sent| <= |history|
    requires forall k :: 0 <= k < |sent| ==> Describes(sent[k], history[start + k])
    requires TrailingGap(sent).Some?
    ensures start < TrailingGap(sent).value.fromSeq <= TrailingGap(sent).value.toSeq == start + |sent|
  {
    var front := sent[..|sent| - 1];
    assert Describes(sent[|sent| - 1], history[start + |sent| - 1]);
    if TrailingGap(front).Some? {
      TrailingGapRange(front, history, start);
    }
  }

  lemma ChannelGrows(ch: Channel, history: seq<Chunk>, p: Chunk)
    requires ChannelOk(ch, history)
    ensures ChannelOk(ch, history + [p])
  {
  }

  lemma TracksGrows(c: Client, history: seq<Chunk>, upTo: nat, p: Chunk)
    requires Tracks(c, history, upTo)
    ensures Tracks(c, history + [p], upTo)
  {
    hide ChannelOk, TrailingGap;
    forall k | 0 <= k < |c.channels| ensures ChannelOk(c.channels[k], history + [p]) {
      ChannelGrows(c.channels[k], history, p);
    }
  }

  lemma SendDescribes(ch: Channel, history: seq<Chunk>, e: Event)
    requires ChannelOk(ch, history) && ch.start + |ch.sent| < |history|
    requires Describes(e, history[ch.start + |ch.sent|])
    ensures ChannelOk(ch.(sent := ch.sent + [e]), history)
  {
  }

  /** Pushing the next chunk advances the client's frontier by exactly one chunk. */
  lemma PushTracks(c: Client, history: seq<Chunk>, upTo: nat, cap: nat)
    requires Numbered(history) && Tracks(c, history, upTo) && upTo < |history|
    ensures Tracks(Push(c, history[upTo], cap), history, upTo + 1)
  {
    hide ChannelOk, TrailingGap, ChunkLen;
    var p := history[upTo];
    if c.entry.Some? && c.entry.value.tx.Some? {
      var e := c.entry.value;
      var ch := Latest(c);
      assert ChannelOk(ch, history);
      var ev := if e.queuedBytes + ChunkLen(p) <= cap then Output(p) else GapFor(p);
      assert Describes(ev, p);
      SendDescribes(ch, history, ev);
      TrailingGapSnoc(ch.sent, ev);
      if TrailingGap(ch.sent).Some? {
        LatestGapRange(ch, history);
      }
    }
  }

  lemma LatestGapRange(ch: Channel, history: seq<Chunk>)
    requires Numbered(history) && ChannelOk(ch, history) && TrailingGap(ch.sent).Some?
    ensures TrailingGap(ch.sent).value.fromSeq <= TrailingGap(ch.sent).value.toSeq == ch.start + |ch.sent|
  {
    TrailingGapRange(ch.sent, history, ch.start);
  }

  /** Replaying a stretch of the history into a client brings it to the end of that stretch. */
  lemma {:induction false} PushAllTracks(c: Client, history: seq<Chunk>, upTo: nat, n: nat, cap: nat)
    requires Numbered(history) && Tracks(c, history, upTo) && upTo <= n <= |history|
    ensures Tracks(PushAll(c, history[upTo..n], cap), history, n)
    decreases n
  {
    hide Tracks, Push, Numbered;
    if upTo < n {
      var ps := history[upTo..n];
      assert ps[..|ps| - 1] == history[upTo..n - 1];
      assert ps[|ps| - 1] == history[n - 1];
      PushAllTracks(c, history, upTo, n - 1, cap);
      PushTracks(PushAll(c, history[upTo..n - 1], cap), history, n - 1, cap);
    }
  }

  /** Fan-out of a freshly published chunk keeps every client's stream complete. */
  lemma DeliverTracks(c: Client, history: seq<Chunk>, p: Chunk, cap: nat)
    requires Numbered(history + [p]) && Tracks(c, history, |history|)
    ensures Tracks(Deliver(c, p, cap), history + [p], |history| + 1)
  {
    TracksGrows(c, history, |history|, p);
    if c.entry.Some? && c.entry.value.parked.None? {
      PushTracks(c, history + [p], |history|, cap);
    }
  }
}
