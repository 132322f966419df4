/** Park, resume and evict: a resumed stream is seamless, and only a subscriber that stayed parked is evicted. */
module HubResume {
  import opened Wrappers
  import opened HubModel
  import opened HubStreams
  import opened HubRuns
  import opened HubDelivery
  import opened HubFairness
  import Chunking
  import HubRing

  /** What the client of the newest channel has taken off it so far, and the number of chunks that brings it to. */
  function Consumed(c: Client): seq<Event>
    requires c.channels != [] && Latest(c).taken <= |Latest(c).sent|
  {
    Latest(c).sent[..Latest(c).taken]
  }

  function SeenUpTo(c: Client): nat
    requires c.channels != []
  {
    Latest(c).start + Latest(c).taken
  }

  lemma ResumableHasChannel(h: Hub, id: nat)
    requires Inv(h) && CanResume(h, id)
    ensures h.clients[id].channels != []
    ensures ChannelOk(Latest(h.clients[id]), h.history)
  {
    hide HistoryOk, HubRing.RingOk, ChannelOk;
    assert Tracks(h.clients[id], h.history, |h.history|);
  }

  lemma StreamsJoin(a: seq<Event>, b: seq<Event>, start: nat, mid: nat, history: seq<Chunk>)
    requires start + |a| <= |history| && mid + |b| == |history| && start + |a| <= mid
    requires forall k :: 0 <= k < |a| ==> Describes(a[k], history[start + k])
    requires forall k :: 0 <= k < |b| ==> Describes(b[k], history[mid + k])
    ensures Continues(a + b, start, history) <==> mid == start + |a|
  {
    if mid == start + |a| {
      forall k | 0 <= k < |a + b| ensures Describes((a + b)[k], history[start + k]) {
        if k >= |a| {
          assert (a + b)[k] == b[k - |a|];
          assert history[start + k] == history[mid + (k - |a|)];
        }
      }
    }
  }

  /** A run in which `id` is not resumed again. */
  predicate NoResume(steps: seq<Step>, id: nat) {
    forall k :: 0 <= k < |steps| ==> !Resumes(steps[k], id)
  }

  predicate Resumes(step: Step, id: nat) {
    step.DoResume? && step.id == id
  }

  /** A park of `id`, or a close of the hub: an eviction is not counted, because it takes effect only after a park. */
  predicate Leaves(step: Step, id: nat) {
    step.DoClose? || (step.DoPark? && step.id == id)
  }

  predicate LeftIn(steps: seq<Step>, id: nat) {
    exists k :: 0 <= k < |steps| && Leaves(steps[k], id)
  }

  /** Some publish came after a park of `id` or a close. */
  predicate PublishedWhileAway(steps: seq<Step>, id: nat) {
    exists k :: 0 <= k < |steps| && steps[k].DoPublish? && LeftIn(steps[..k], id)
  }

  lemma LeftInSnoc(front: seq<Step>, last: Step, id: nat)
    ensures LeftIn(front + [last], id) <==> LeftIn(front, id) || Leaves(last, id)
  {
    hide Leaves;
    var all := front + [last];
    if k :| 0 <= k < |front| && Leaves(front[k], id) {
      assert all[k] == front[k];
    }
    if Leaves(last, id) {
      assert all[|front|] == last;
    }
  }

  lemma PublishedWhileAwaySnoc(front: seq<Step>, last: Step, id: nat)
    ensures PublishedWhileAway(front + [last], id)
            <==> PublishedWhileAway(front, id) || (last.DoPublish? && LeftIn(front, id))
  {
    hide LeftIn;
    var all := front + [last];
    forall k | 0 <= k < |front| ensures all[k] == front[k] && all[..k] == front[..k] {
    }
    assert all[..|front|] == front;
    if last.DoPublish? && LeftIn(front, id) {
      assert all[|front|] == last;
    }
    if k :| 0 <= k < |all| && all[k].DoPublish? && LeftIn(all[..k], id) {
      if k < |front| {
        assert front[k].DoPublish? && LeftIn(front[..k], id);
      }
    }
    if k :| 0 <= k < |front| && front[k].DoPublish? && LeftIn(front[..k], id) {
      assert all[k].DoPublish? && LeftIn(all[..k], id);
    }
  }

  predicate Reachable(c: Client) {
    c.entry.Some? && c.entry.value.tx.Some?
  }

  /** How a client has moved since it was attached as `c0`, with `n` chunks published: same channels, gone or not, complete or not. */
  ghost predicate Moved(c0: Client, c: Client, n: nat, away: bool, missed: bool) {
    && c.channels != [] && |c.channels| == |c0.channels|
    && Latest(c).start == Latest(c0).start
    && (Reachable(c) <==> !away)
    && (Latest(c).start + |Latest(c).sent| == n <==> !missed)
    && Latest(c).start + |Latest(c).sent| <= n
  }

  ghost predicate Since(h0: Hub, h: Hub, id: nat, away: bool, missed: bool) {
    id in h0.clients && id in h.clients && Moved(h0.clients[id], h.clients[id], |h.history|, away, missed)
  }

  lemma {:induction false} PublishAllWhileAway(h: Hub, ps: seq<Chunk>, id: nat)
    requires id in h.clients
    requires h.clients[id].entry.Some? ==> h.clients[id].entry.value.parked.Some?
    ensures id in PublishAll(h, ps).clients && PublishAll(h, ps).clients[id] == h.clients[id]
  {
    hide Fit, Push;
    if ps != [] {
      PublishAllWhileAway(h, ps[..|ps| - 1], id);
    }
  }

  lemma {:induction false} PublishAllWhileAttached(h: Hub, ps: seq<Chunk>, id: nat)
    requires id in h.clients && h.clients[id].entry.Some? && h.clients[id].channels != []
    requires h.clients[id].entry.value.tx == Some(|h.clients[id].channels| - 1)
    requires h.clients[id].entry.value.parked.None? && !h.clients[id].entry.value.closed
    ensures id in PublishAll(h, ps).clients
    ensures var c, c' := h.clients[id], PublishAll(h, ps).clients[id];
            c'.entry.Some? && c'.entry.value.tx == c.entry.value.tx && c'.entry.value.parked.None? &&
            !c'.entry.value.closed && |c'.channels| == |c.channels| && Latest(c').start == Latest(c).start
  {
    hide Fit, Widen, ChunkLen;
    if ps != [] {
      PublishAllWhileAttached(h, ps[..|ps| - 1], id);
    }
  }

  /** A publish reaches an attached client and passes a parked or removed one by. */
  lemma PublishSince(h0: Hub, h: Hub, id: nat, away: bool, missed: bool, payload: seq<byte>)
    requires Inv(h) && Since(h0, h, id, away, missed)
    ensures Since(h0, Publish(h, payload), id, away, missed || away)
  {
    hide HubRing.RingOk, ChannelOk, TrailingGap, PublishAll, GoodChunk, Chunking.Chunks;
    var ps := Chunking.Chunks(h.sessionId, h.nextSeq, payload);
    PublishKeepsInv(h, payload);
    assert Tracks(h.clients[id], h.history, |h.history|);
    var h' := Publish(h, payload);
    assert |h'.history| > |h.history|;
    if away {
      PublishAllWhileAway(h, ps, id);
    } else {
      PublishAllWhileAttached(h, ps, id);
      assert Tracks(h'.clients[id], h'.history, |h'.history|);
    }
  }

  /** What the steps that name a client do to it, short of a resume; an eviction finds an attached one not parked. */
  lemma OwnStepMoved(c0: Client, c: Client, history: seq<Chunk>, away: bool, missed: bool, step: Step, deadline: nat)
    requires Moved(c0, c, |history|, away, missed) && Tracks(c, history, |history|)
    ensures Moved(c0, ParkClient(c, deadline), |history|, true, missed)
    ensures Moved(c0, c.(entry := None), |history|, true, missed)
    ensures step.DoEvict? && Evictable(c, step.now) ==> away
    ensures step.DoTake? ==> Moved(c0, TakeOne(c, step.channel), |history|, away, missed)
    ensures step.DoAck? ==> Moved(c0, AckOne(c, step.channel), |history|, away, missed)
  {
    hide ChannelOk, TrailingGap;
  }

  lemma UpdateSince(h0: Hub, h: Hub, id: nat, c: Client, away: bool, missed: bool)
    requires id in h0.clients && id in h.clients && Moved(h0.clients[id], c, |h.history|, away, missed)
    ensures Since(h0, h.(clients := h.clients[id := c]), id, away, missed)
  {
    hide Moved;
  }

  /** The client's own steps and the hub's close, as steps of the hub. */
  lemma OwnStepSince(h0: Hub, h: Hub, id: nat, away: bool, missed: bool, step: Step)
    requires Inv(h) && Since(h0, h, id, away, missed) && !Resumes(step, id)
    requires Concerns(step, id) && !step.DoPublish?
    ensures Since(h0, Apply(h, step), id, away || Leaves(step, id), missed)
  {
    var c := h.clients[id];
    assert Tracks(c, h.history, |h.history|);
    var deadline := if step.DoPark? then step.now + h.config.parkDuration else 0;
    OwnStepMoved(h0.clients[id], c, h.history, away, missed, step, deadline);
    hide Inv, Tracks, Moved, TakeOne, AckOne, ParkClient, Evictable;
    match step
    case DoPark(_, _) => UpdateSince(h0, h, id, ParkClient(c, deadline), true, missed);
    case DoEvict(_, now) =>
      if Evictable(c, now) {
        UpdateSince(h0, h, id, c.(entry := None), true, missed);
      }
    case DoTake(_, i) => UpdateSince(h0, h, id, TakeOne(c, i), away, missed);
    case DoAck(_, i) => UpdateSince(h0, h, id, AckOne(c, i), away, missed);
    case DoClose =>
  }

  lemma StepSince(h0: Hub, h: Hub, id: nat, away: bool, missed: bool, step: Step)
    requires Inv(h) && Since(h0, h, id, away, missed) && !Resumes(step, id)
    ensures Since(h0, Apply(h, step), id, away || Leaves(step, id), missed || (step.DoPublish? && away))
  {
    if step.DoPublish? {
      hide Inv, Since, Publish;
      PublishSince(h0, h, id, away, missed, step.payload);
    } else if !Concerns(step, id) {
      hide HistoryOk, HubRing.RingOk, Apply, Tracks, Moved;
      OthersAreInvisible(h, step, id);
      assert FacetOf(Apply(h, step), id).client == FacetOf(h, id).client;
      assert FacetOf(Apply(h, step), id).history == FacetOf(h, id).history;
    } else {
      hide *;
      OwnStepSince(h0, h, id, away, missed, step);
    }
  }

  lemma StartsSince(h: Hub, id: nat)
    requires Inv(h) && Attached(h, id)
    ensures Since(h, h, id, false, false)
  {
    hide Inv;
    AttachedContinues(h, id);
  }

  lemma {:induction false} RunSince(h: Hub, id: nat, steps: seq<Step>)
    requires Inv(h) && Attached(h, id) && NoResume(steps, id)
    ensures Inv(Run(h, steps))
    ensures Since(h, Run(h, steps), id, LeftIn(steps, id), PublishedWhileAway(steps, id))
  {
    hide Inv, Since, Attached, LeftIn, PublishedWhileAway, Apply, Resumes;
    RunKeepsInv(h, steps);
    if steps == [] {
      StartsSince(h, id);
      NothingHappened(id);
    } else {
      var front, last := steps[..|steps| - 1], steps[|steps| - 1];
      assert steps == front + [last];
      RunSince(h, id, front);
      StepSince(h, Run(h, front), id, LeftIn(front, id), PublishedWhileAway(front, id), last);
      LeftInSnoc(front, last, id);
      PublishedWhileAwaySnoc(front, last, id);
    }
  }

  lemma NothingHappened(id: nat)
    ensures !LeftIn([], id) && !PublishedWhileAway([], id)
  {
  }

  /**
   From the moment a subscriber is attached, whatever runs before its next resume, its channel
   still describes every chunk published since its start exactly when no publish came after a
   park of it or a close of the hub. Eviction timers may fire as they like. A second park left
   over from dropping the old handle, landing after a resume, costs the stream every later chunk.
   */
  lemma CompleteIffNeverAwayAtPublish(h: Hub, id: nat, steps: seq<Step>)
    requires Inv(h) && Attached(h, id) && NoResume(steps, id)
    ensures var h' := Run(h, steps);
            id in h'.clients && h'.clients[id].channels != [] &&
            var ch := Latest(h'.clients[id]);
            (Continues(ch.sent, ch.start, h'.history) <==> !PublishedWhileAway(steps, id))
  {
    RunSince(h, id, steps);
    var h' := Run(h, steps);
    hide Run, HistoryOk, HubRing.RingOk, LeftIn, PublishedWhileAway, Describes, TrailingGap;
    assert Tracks(h'.clients[id], h'.history, |h'.history|);
    assert ChannelOk(Latest(h'.clients[id]), h'.history);
  }

  /**
   The park that dropping a handle spawns names only the id, so it parks whatever channel the
   id has by then: landing on a live subscription, it silently costs it the next payload.
   */
  lemma StaleParkLosesOutput(h: Hub, id: nat, now: nat, payload: seq<byte>)
    requires Inv(h) && Attached(h, id)
    ensures var h' := Run(h, [DoPark(id, now), DoPublish(payload)]);
            id in h'.clients && h'.clients[id].channels != [] &&
            !Continues(Latest(h'.clients[id]).sent, Latest(h'.clients[id]).start, h'.history)
  {
    var steps := [DoPark(id, now), DoPublish(payload)];
    hide Run, Inv, Attached, Continues;
    assert steps[..1] == [DoPark(id, now)];
    assert LeftIn(steps[..1], id) by {
      assert Leaves(steps[..1][0], id);
    }
    assert steps[1] == DoPublish(payload);
    CompleteIffNeverAwayAtPublish(h, id, steps);
  }

  /**
   Reconnecting is seamless over whole runs: after resuming with the number it got to, and
   anything the hub does before the next resume, what the client consumed before plus what it
   is sent after is every chunk once in order, exactly when the ring reached back far enough at
   the resume and no later publish found the client gone again. The old eviction timer, which
   still fires after the resume, makes no difference.
   */
  lemma SeamlessReconnect(h: Hub, id: nat, steps: seq<Step>)
    requires Inv(h) && CanResume(h, id) && NoResume(steps, id)
    ensures h.clients[id].channels != [] && Latest(h.clients[id]).taken <= |Latest(h.clients[id]).sent|
    ensures var c := h.clients[id];
            var h' := Run(Resume(h, id, Some(SeenUpTo(c))), steps);
            id in h'.clients && h'.clients[id].channels != [] &&
            (Continues(Consumed(c) + Latest(h'.clients[id]).sent, Latest(c).start, h'.history)
             <==> Evicted(h) <= SeenUpTo(c) && !PublishedWhileAway(steps, id))
  {
    hide HistoryOk, HubRing.RingOk, ClientsOk, Attach, Describes, TrailingGap, Run, PublishedWhileAway, Continues, Resume;
    ResumableHasChannel(h, id);
    var c := h.clients[id];
    var h1 := Resume(h, id, Some(SeenUpTo(c)));
    ResumeKeepsInv(h, id, Some(SeenUpTo(c)));
    ResumedStart(h, id);
    RunSince(h1, id, steps);
    var h' := Run(h1, steps);
    RunExtendsHistory(h1, steps);
    LatestOk(h', id);
    JoinedIff(c, Latest(h'.clients[id]), h.history, h'.history, Evicted(h), PublishedWhileAway(steps, id));
  }

  lemma ResumedStart(h: Hub, id: nat)
    requires Inv(h) && CanResume(h, id)
    ensures h.clients[id].channels != []
    ensures var h1 := Resume(h, id, Some(SeenUpTo(h.clients[id])));
            Attached(h1, id) && h1.clients[id].channels != [] && h1.history == h.history &&
            Latest(h1.clients[id]).start
            == if SeenUpTo(h.clients[id]) < Evicted(h) then Evicted(h) else SeenUpTo(h.clients[id])
  {
    ResumableHasChannel(h, id);
    var c := h.clients[id];
    AttachedAfter(h, c.entry.value, c.channels, Some(SeenUpTo(c)));
    hide HistoryOk, HubRing.RingOk, ClientsOk, Attach, Describes;
  }

  lemma LatestOk(h: Hub, id: nat)
    requires Inv(h) && id in h.clients && h.clients[id].channels != []
    ensures ChannelOk(Latest(h.clients[id]), h.history)
  {
    hide HistoryOk, HubRing.RingOk, ChannelOk;
    assert Tracks(h.clients[id], h.history, |h.history|);
  }

  /** The history only ever grows. */
  lemma {:induction false} RunExtendsHistory(h: Hub, steps: seq<Step>)
    requires Inv(h)
    ensures h.history <= Run(h, steps).history
  {
    hide Inv, Apply;
    if steps != [] {
      var front := steps[..|steps| - 1];
      RunExtendsHistory(h, front);
      RunKeepsInv(h, front);
      StepGrowsHistory(Run(h, front), steps[|steps| - 1]);
    }
  }

  lemma StepGrowsHistory(h: Hub, step: Step)
    requires Inv(h)
    ensures h.history <= Apply(h, step).history
  {
    hide Inv, Publish, Attach, TakeOne, AckOne, ParkClient, Evictable;
    if step.DoPublish? {
      PublishKeepsInv(h, step.payload);
    }
  }

  lemma JoinedIff(c: Client, ch: Channel, before: seq<Chunk>, after: seq<Chunk>, evicted: int, missed: bool)
    requires c.channels != [] && ChannelOk(Latest(c), before) && ChannelOk(ch, after) && before <= after
    requires evicted <= |before|
    requires ch.start == if SeenUpTo(c) < evicted then evicted else SeenUpTo(c)
    requires ch.start + |ch.sent| == |after| <==> !missed
    ensures Continues(Consumed(c) + ch.sent, Latest(c).start, after) <==> evicted <= SeenUpTo(c) && !missed
  {
    hide Describes;
    var a := Consumed(c);
    forall k | 0 <= k < |a| ensures Describes(a[k], after[Latest(c).start + k]) {
      assert a[k] == Latest(c).sent[k];
    }
    if !missed {
      StreamsJoin(a, ch.sent, Latest(c).start, ch.start, after);
    }
  }

  /** The last thing that happened to `id`'s parking was a park at time `deadline - grace`, with no resume of it since. */
  ghost predicate ParkedSince(steps: seq<Step>, id: nat, deadline: nat, grace: nat) {
    exists k :: 0 <= k < |steps| && steps[k].DoPark? && steps[k].id == id && steps[k].now + grace == deadline &&
      forall j :: k < j < |steps| ==> !(steps[j].DoResume? && steps[j].id == id)
  }

  lemma ParkedSinceSnoc(front: seq<Step>, last: Step, id: nat, deadline: nat, grace: nat)
    requires ParkedSince(front, id, deadline, grace) && !(last.DoResume? && last.id == id)
    ensures ParkedSince(front + [last], id, deadline, grace)
  {
    var k :| 0 <= k < |front| && front[k].DoPark? && front[k].id == id && front[k].now + grace == deadline &&
      forall j :: k < j < |front| ==> !(front[j].DoResume? && front[j].id == id);
    assert (front + [last])[k] == front[k];
  }

  lemma JustParked(front: seq<Step>, last: Step, id: nat, grace: nat)
    requires last.DoPark? && last.id == id
    ensures ParkedSince(front + [last], id, last.now + grace, grace)
  {
    assert (front + [last])[|front|] == last;
  }

  predicate ParkedUntil(h: Hub, id: nat, deadline: nat) {
    id in h.clients && h.clients[id].entry.Some? && h.clients[id].entry.value.parked == Some(deadline)
  }

  lemma {:induction false} PublishAllKeepsParking(h: Hub, ps: seq<Chunk>, id: nat, deadline: nat)
    ensures ParkedUntil(PublishAll(h, ps), id, deadline) <==> ParkedUntil(h, id, deadline)
  {
    hide Fit, ChunkLen, Widen;
    if ps != [] {
      PublishAllKeepsParking(h, ps[..|ps| - 1], id, deadline);
    }
  }

  /** Parking changes only by a park of this id, and a resume clears it. */
  lemma StepParks(h: Hub, step: Step, id: nat, deadline: nat)
    requires ClientsOk(h) && ParkedUntil(Apply(h, step), id, deadline)
    ensures ParkedUntil(h, id, deadline) || (step.DoPark? && step.id == id && step.now + h.config.parkDuration == deadline)
    ensures !(step.DoResume? && step.id == id)
  {
    hide PublishAll, PushAll, Tracks;
    match step
    case DoPublish(payload) =>
      PublishAllKeepsParking(h, Chunking.Chunks(h.sessionId, h.nextSeq, payload), id, deadline);
    case DoSubscribe(since) => AttachUnparked(h, FRESH_ENTRY, [], since);
    case DoResume(j, since) =>
      if CanResume(h, j) {
        AttachUnparked(h, h.clients[j].entry.value, h.clients[j].channels, since);
      }
      if id in h.clients {
        NotClosed(h, id);
      }
    case _ =>
  }

  lemma AttachUnparked(h: Hub, e: SubEntry, channels: seq<Channel>, since: Option<nat>)
    ensures Attach(h, e, channels, since).entry.Some? && Attach(h, e, channels, since).entry.value.parked.None?
  {
    hide PushAll, Backlog;
    var start := CatchUpFrom(h, since);
    var c := Client(Some(e.(tx := Some(|channels|), queuedBytes := 0, pendingGap := None, parked := None)),
                    channels + [Channel(if start < 0 then 0 else start, [], 0, 0)]);
    PushAllShape(c, Backlog(h, since), h.config.subQueueBytes);
  }

  lemma NotClosed(h: Hub, id: nat)
    requires ClientsOk(h) && id in h.clients
    ensures h.clients[id].entry.Some? ==> !h.clients[id].entry.value.closed
  {
    assert Tracks(h.clients[id], h.history, |h.history|);
  }

  /** In every run of a new hub a resume fails only for an id without an entry: nothing ever marks an entry closed. */
  lemma ResumeFailsOnlyWhenGone(sessionId: string, config: HubConfig, steps: seq<Step>, id: nat)
    ensures var h := Run(NewHub(sessionId, config), steps);
            CanResume(h, id) <==> id in h.clients && h.clients[id].entry.Some?
  {
    NewHubInv(sessionId, config);
    RunKeepsInv(NewHub(sessionId, config), steps);
    var h := Run(NewHub(sessionId, config), steps);
    hide NewHub, Run, HistoryOk, HubRing.RingOk, Tracks;
    if id in h.clients {
      NotClosed(h, id);
    }
  }

  /** An id that was removed never comes back. */
  lemma StepKeepsGone(h: Hub, step: Step, id: nat)
    requires ClientsOk(h) && id in h.clients && !CanResume(h, id)
    ensures id in Apply(h, step).clients && !CanResume(Apply(h, step), id)
  {
    NotClosed(h, id);
    if step.DoPublish? {
      hide Tracks, PublishAll, ClientsOk;
      PublishAllWhileAway(h, Chunking.Chunks(h.sessionId, h.nextSeq, step.payload), id);
    } else if !Concerns(step, id) {
      hide Apply, ClientsOk, Tracks;
      OthersAreInvisible(h, step, id);
      assert FacetOf(Apply(h, step), id).client == FacetOf(h, id).client;
    } else {
      hide Attach, TakeOne, ClientsOk, Tracks;
    }
  }

  lemma {:induction false} RunKeepsGone(h: Hub, steps: seq<Step>, id: nat)
    requires Inv(h) && id in h.clients
    ensures id in Run(h, steps).clients && (CanResume(Run(h, steps), id) ==> CanResume(h, id))
  {
    hide HistoryOk, HubRing.RingOk, ClientsOk, Apply, CanResume;
    if steps != [] {
      var front, last := steps[..|steps| - 1], steps[|steps| - 1];
      RunKeepsGone(h, front, id);
      RunKeepsInv(h, front);
      StepKeepsId(Run(h, front), last, id);
      if !CanResume(Run(h, front), id) {
        StepKeepsGone(Run(h, front), last, id);
      }
    }
  }

  lemma StepKeepsId(h: Hub, step: Step, id: nat)
    requires ClientsOk(h) && id in h.clients
    ensures id in Apply(h, step).clients
  {
    hide Attach, TakeOne, AckOne, ParkClient, Evictable, Tracks, PublishAll;
    if step.DoPublish? {
      PublishAllKeepsIds(h, Chunking.Chunks(h.sessionId, h.nextSeq, step.payload), id);
    }
  }

  lemma {:induction false} PublishAllKeepsIds(h: Hub, ps: seq<Chunk>, id: nat)
    requires id in h.clients
    ensures id in PublishAll(h, ps).clients
  {
    hide Fit, Deliver;
    if ps != [] {
      PublishAllKeepsIds(h, ps[..|ps| - 1], id);
    }
  }

  /**
   A resume against the park's eviction timer, in either order: a timer that comes second does
   nothing, however late it is, and one that comes first makes the resume fail exactly when it
   found the subscriber parked past the deadline.
   */
  lemma ResumeAgainstTimer(h: Hub, id: nat, since: Option<nat>, now: nat)
    requires CanResume(h, id)
    ensures Evict(Resume(h, id, since), id, now) == Resume(h, id, since)
    ensures CanResume(Evict(h, id, now), id) <==> !Evictable(h.clients[id], now)
    ensures CanResume(Evict(h, id, now), id) ==> Resume(Evict(h, id, now), id, since) == Resume(h, id, since)
  {
    hide Attach;
    AttachUnparked(h, h.clients[id].entry.value, h.clients[id].channels, since);
  }

  lemma {:induction false} ParkedMeansParkStep(h: Hub, steps: seq<Step>, id: nat, deadline: nat)
    requires Inv(h) && !ParkedUntil(h, id, deadline)
    requires ParkedUntil(Run(h, steps), id, deadline)
    ensures ParkedSince(steps, id, deadline, h.config.parkDuration)
  {
    hide Apply, ParkedUntil, HistoryOk, HubRing.RingOk, ClientsOk, ParkedSince;
    if steps != [] {
      var front, last := steps[..|steps| - 1], steps[|steps| - 1];
      assert steps == front + [last];
      RunKeepsInv(h, front);
      RunKeepsConfig(h, front);
      StepParks(Run(h, front), last, id, deadline);
      if ParkedUntil(Run(h, front), id, deadline) {
        ParkedMeansParkStep(h, front, id, deadline);
        ParkedSinceSnoc(front, last, id, deadline, h.config.parkDuration);
      } else {
        JustParked(front, last, id, h.config.parkDuration);
      }
    }
  }

  lemma {:induction false} PublishAllKeepsConfig(h: Hub, ps: seq<Chunk>)
    ensures PublishAll(h, ps).config == h.config
  {
    hide Fit, Deliver;
    if ps != [] {
      PublishAllKeepsConfig(h, ps[..|ps| - 1]);
    }
  }

  lemma {:induction false} RunKeepsConfig(h: Hub, steps: seq<Step>)
    ensures Run(h, steps).config == h.config
  {
    if steps != [] {
      var front, last := steps[..|steps| - 1], steps[|steps| - 1];
      RunKeepsConfig(h, front);
      hide Run, Attach, PublishAll, TakeOne, AckOne, ParkClient, Evictable;
      if last.DoPublish? {
        var g := Run(h, front);
        PublishAllKeepsConfig(g, Chunking.Chunks(g.sessionId, g.nextSeq, last.payload));
      }
    }
  }

  /**
   Only a close or an eviction removes a registered subscriber, and an eviction at `now`
   only one that was parked at least the grace period before `now` and not resumed since.
   */
  lemma RemovalIsEarned(sessionId: string, config: HubConfig, steps: seq<Step>, step: Step, id: nat)
    requires var h := Run(NewHub(sessionId, config), steps);
             id in h.clients && h.clients[id].entry.Some? &&
             id in Apply(h, step).clients && Apply(h, step).clients[id].entry.None?
    ensures step.DoClose? ||
            (step.DoEvict? && step.id == id &&
             exists deadline: nat :: deadline <= step.now && ParkedSince(steps, id, deadline, config.parkDuration))
  {
    var h0 := NewHub(sessionId, config);
    var h := Run(h0, steps);
    NewHubInv(sessionId, config);
    RunKeepsInv(h0, steps);
    hide Run, HistoryOk, HubRing.RingOk, ParkedSince;
    StepRemoves(h, step, id);
    if step.DoEvict? {
      var deadline := h.clients[id].entry.value.parked.value;
      assert ParkedUntil(h, id, deadline);
      ParkedMeansParkStep(h0, steps, id, deadline);
    }
  }

  lemma {:induction false} PublishAllKeepsEntry(h: Hub, ps: seq<Chunk>, id: nat)
    requires id in h.clients && h.clients[id].entry.Some?
    ensures id in PublishAll(h, ps).clients && PublishAll(h, ps).clients[id].entry.Some?
  {
    hide Fit, ChunkLen, Widen;
    if ps != [] {
      PublishAllKeepsEntry(h, ps[..|ps| - 1], id);
    }
  }

  lemma StepRemoves(h: Hub, step: Step, id: nat)
    requires ClientsOk(h) && id in h.clients && h.clients[id].entry.Some?
    requires id in Apply(h, step).clients && Apply(h, step).clients[id].entry.None?
    ensures step.DoClose? || (step.DoEvict? && step.id == id && Evictable(h.clients[id], step.now))
  {
    hide PublishAll, PushAll, Tracks;
    match step
    case DoPublish(payload) =>
      PublishAllKeepsEntry(h, Chunking.Chunks(h.sessionId, h.nextSeq, payload), id);
    case DoSubscribe(since) => AttachUnparked(h, FRESH_ENTRY, [], since);
    case DoResume(j, since) =>
      if CanResume(h, j) {
        AttachUnparked(h, h.clients[j].entry.value, h.clients[j].channels, since);
      }
    case _ =>
  }

  // The grace period, exactly.

  predicate Registered(h: Hub, id: nat) {
    id in h.clients && h.clients[id].entry.Some?
  }

  /** When the park now in force was made: the first since `id` was last attached. */
  function ParkTime(h: Hub, steps: seq<Step>, id: nat): Option<nat> {
    if steps == [] || !Registered(Run(h, steps), id) then None
    else
      var last, before := steps[|steps| - 1], ParkTime(h, steps[..|steps| - 1], id);
      if last.DoPark? && last.id == id && before.None? then Some(last.now)
      else if Resumes(last, id) then None
      else before
  }

  function DeadlineOf(park: Option<nat>, grace: nat): Option<nat> {
    if park.Some? then Some(park.value + grace) else None
  }

  lemma {:induction false} PublishAllParking(h: Hub, ps: seq<Chunk>, id: nat)
    ensures Registered(PublishAll(h, ps), id) <==> Registered(h, id)
    ensures Registered(h, id) ==> PublishAll(h, ps).clients[id].entry.value.parked == h.clients[id].entry.value.parked
  {
    hide Fit, ChunkLen, Widen;
    if ps != [] {
      PublishAllParking(h, ps[..|ps| - 1], id);
    }
  }

  /** What one step makes of the parking of an id that is registered after it. */
  lemma StepParking(h: Hub, step: Step, id: nat)
    requires ClientsOk(h) && Registered(Apply(h, step), id)
    ensures Apply(h, step).clients[id].entry.value.parked ==
            if !Registered(h, id) || Resumes(step, id) then None
            else if step.DoPark? && step.id == id && h.clients[id].entry.value.parked.None? then Some(step.now + h.config.parkDuration)
            else h.clients[id].entry.value.parked
  {
    hide PublishAll, PushAll, Tracks;
    if id in h.clients {
      NotClosed(h, id);
    }
    match step
    case DoPublish(payload) =>
      PublishAllParking(h, Chunking.Chunks(h.sessionId, h.nextSeq, payload), id);
    case DoSubscribe(since) => AttachUnparked(h, FRESH_ENTRY, [], since);
    case DoResume(j, since) =>
      if CanResume(h, j) {
        AttachUnparked(h, h.clients[j].entry.value, h.clients[j].channels, since);
      }
    case _ =>
  }

  lemma {:induction false} ParkedIffFrom(h0: Hub, steps: seq<Step>, id: nat)
    requires Inv(h0) && !Registered(h0, id) && Registered(Run(h0, steps), id)
    ensures Run(h0, steps).clients[id].entry.value.parked == DeadlineOf(ParkTime(h0, steps, id), h0.config.parkDuration)
  {
    hide Apply, HistoryOk, HubRing.RingOk, ClientsOk;
    if steps != [] {
      var front := steps[..|steps| - 1];
      if Registered(Run(h0, front), id) {
        ParkedIffFrom(h0, front, id);
      }
      RunKeepsInv(h0, front);
      RunKeepsConfig(h0, front);
      StepParking(Run(h0, front), steps[|steps| - 1], id);
      StepRegisters(Run(h0, front), steps[|steps| - 1], id);
      assert !Registered(Run(h0, front), id) ==> ParkTime(h0, front, id).None?;
    }
  }

  /** In every run a registered id is parked exactly until a grace period after the first park since it was last attached. */
  lemma ParkedIff(sessionId: string, config: HubConfig, steps: seq<Step>, id: nat)
    requires Registered(Run(NewHub(sessionId, config), steps), id)
    ensures var h0 := NewHub(sessionId, config);
            Run(h0, steps).clients[id].entry.value.parked == DeadlineOf(ParkTime(h0, steps, id), config.parkDuration)
  {
    hide Run, Inv, ParkTime;
    NewHubInv(sessionId, config);
    ParkedIffFrom(NewHub(sessionId, config), steps, id);
  }

  /** An id is registered by the subscribe that is given its number, and goes with a close or an eviction past its park's deadline. */
  lemma StepRegisters(h: Hub, step: Step, id: nat)
    requires ClientsOk(h)
    ensures Registered(Apply(h, step), id) <==>
              if step.DoSubscribe? && id == h.nextSubId then true
              else Registered(h, id) && !step.DoClose? && !(step.DoEvict? && step.id == id && Evictable(h.clients[id], step.now))
  {
    hide PublishAll, PushAll, Tracks, Evictable;
    match step
    case DoPublish(payload) =>
      PublishAllParking(h, Chunking.Chunks(h.sessionId, h.nextSeq, payload), id);
    case DoSubscribe(since) => AttachUnparked(h, FRESH_ENTRY, [], since);
    case DoResume(j, since) =>
      if CanResume(h, j) {
        AttachUnparked(h, h.clients[j].entry.value, h.clients[j].channels, since);
      }
    case _ =>
  }

  /**
   In every run, exactly these things decide whether an id is registered: a subscribe that is given
   its number, a close, and an eviction of it at least a grace period after the first park since it
   was last attached. An eviction timer that is due therefore does evict, and an early one does not.
   */
  lemma RegisteredIff(sessionId: string, config: HubConfig, steps: seq<Step>, step: Step, id: nat)
    ensures var h0 := NewHub(sessionId, config);
            Registered(Run(h0, steps + [step]), id) <==>
              if step.DoSubscribe? && id == Run(h0, steps).nextSubId then true
              else
                && Registered(Run(h0, steps), id) && !step.DoClose?
                && !(step.DoEvict? && step.id == id && ParkTime(h0, steps, id).Some?
                     && ParkTime(h0, steps, id).value + config.parkDuration <= step.now)
  {
    var h0 := NewHub(sessionId, config);
    var h := Run(h0, steps);
    assert (steps + [step])[..|steps|] == steps;
    NewHubInv(sessionId, config);
    RunKeepsInv(h0, steps);
    StepRegisters(h, step, id);
    if Registered(h, id) {
      ParkedIff(sessionId, config, steps, id);
    }
    hide NewHub, Apply, HistoryOk, HubRing.RingOk, ClientsOk, ParkTime;
  }
}
