/** Any number of reconnects: a client that always resumes with the number it reached reads one seamless stream. */
module HubReconnects {
  import opened Wrappers
  import opened HubModel
  import opened HubStreams
  import opened HubRuns
  import opened HubDelivery
  import opened HubResume
  import HubRing

  /** The number the client of `id` has reached on its newest channel. */
  function Reached(h: Hub, id: nat): nat {
    if id in h.clients && h.clients[id].channels != [] then SeenUpTo(h.clients[id]) else 0
  }

  /** The hub after each round: a resume with the number reached, and whatever the hub does next. */
  function Reconnected(h: Hub, id: nat, rounds: seq<seq<Step>>): Hub {
    if rounds == [] then h
    else
      var g := Reconnected(h, id, rounds[..|rounds| - 1]);
      Run(Resume(g, id, Some(Reached(g, id))), rounds[|rounds| - 1])
  }

  /** What the client took off its newest channel. */
  function TakenOff(h: Hub, id: nat): seq<Event> {
    if id in h.clients && h.clients[id].channels != [] && Latest(h.clients[id]).taken <= |Latest(h.clients[id]).sent|
    then Consumed(h.clients[id]) else []
  }

  /** All that the client took off the channels it had before the newest. */
  function TakenBefore(h: Hub, id: nat, rounds: seq<seq<Step>>): seq<Event> {
    if rounds == [] then []
    else
      var front := rounds[..|rounds| - 1];
      TakenBefore(h, id, front) + TakenOff(Reconnected(h, id, front), id)
  }

  /** At every resume the ring reached back to the number asked for. */
  predicate RingReached(h: Hub, id: nat, rounds: seq<seq<Step>>) {
    rounds == []
    || (var front := rounds[..|rounds| - 1];
        var g := Reconnected(h, id, front);
        RingReached(h, id, front) && Evicted(g) <= Reached(g, id))
  }

  /** Within a round the client is not resumed again. */
  predicate OneResumeEach(rounds: seq<seq<Step>>, id: nat) {
    forall r :: 0 <= r < |rounds| ==> NoResume(rounds[r], id)
  }

  /** What was taken before reaches to where the newest channel starts, exactly when nothing was skipped; and if so it describes every chunk. */
  ghost predicate JoinsUp(h: Hub, id: nat, taken: seq<Event>, start: nat, reached: bool) {
    && id in h.clients && h.clients[id].channels != []
    && start + |taken| <= Latest(h.clients[id]).start <= |h.history|
    && (reached <==> start + |taken| == Latest(h.clients[id]).start)
    && (reached ==> forall k :: 0 <= k < |taken| ==> Describes(taken[k], h.history[start + k]))
  }

  /** The last resume of the rounds found the id registered, as the answer to it tells. */
  predicate LastResumeSucceeds(h: Hub, id: nat, rounds: seq<seq<Step>>) {
    if rounds == [] then CanResume(h, id) else CanResume(Reconnected(h, id, rounds[..|rounds| - 1]), id)
  }

  lemma {:induction false} ReconnectedInv(h: Hub, id: nat, rounds: seq<seq<Step>>)
    requires Inv(h) && id in h.clients
    ensures Inv(Reconnected(h, id, rounds)) && id in Reconnected(h, id, rounds).clients
  {
    hide Inv, Run, Resume, Reached;
    if rounds != [] {
      var front, steps := rounds[..|rounds| - 1], rounds[|rounds| - 1];
      ReconnectedInv(h, id, front);
      var g := Reconnected(h, id, front);
      RoundKeepsId(g, id, steps);
    }
  }

  /** One round keeps the invariant, and an id registered after it was registered before. */
  lemma RoundKeepsId(g: Hub, id: nat, steps: seq<Step>)
    requires Inv(g) && id in g.clients
    ensures var h' := Run(Resume(g, id, Some(Reached(g, id))), steps);
            Inv(h') && id in h'.clients && (CanResume(h', id) ==> CanResume(g, id))
  {
    hide HistoryOk, HubRing.RingOk, ClientsOk, Attach, Run, Reached;
    var g1 := Resume(g, id, Some(Reached(g, id)));
    ResumeKeepsInv(g, id, Some(Reached(g, id)));
    RunKeepsInv(g1, steps);
    RunKeepsGone(g1, steps, id);
  }

  /** A removed id never returns, so the last resume succeeded only if every one before it did. */
  lemma EarlierResumeSucceeded(h: Hub, id: nat, rounds: seq<seq<Step>>)
    requires Inv(h) && id in h.clients && rounds != [] && LastResumeSucceeds(h, id, rounds)
    ensures LastResumeSucceeds(h, id, rounds[..|rounds| - 1])
  {
    hide Inv, Run, Resume, Reached, CanResume;
    var front := rounds[..|rounds| - 1];
    if front != [] {
      ReconnectedInv(h, id, front[..|front| - 1]);
      RoundKeepsId(Reconnected(h, id, front[..|front| - 1]), id, front[|front| - 1]);
    }
  }

  lemma OneRound(g: Hub, id: nat, steps: seq<Step>)
    requires Inv(g) && CanResume(g, id) && NoResume(steps, id)
    ensures g.clients[id].channels != [] && Reached(g, id) == SeenUpTo(g.clients[id])
    ensures ChannelOk(Latest(g.clients[id]), g.history)
    ensures var h' := Run(Resume(g, id, Some(Reached(g, id))), steps);
            && Inv(h') && id in h'.clients && h'.clients[id].channels != [] && g.history <= h'.history
            && ChannelOk(Latest(h'.clients[id]), h'.history)
            && Latest(h'.clients[id]).start == (if Reached(g, id) < Evicted(g) then Evicted(g) else Reached(g, id))
            && (Latest(h'.clients[id]).start + |Latest(h'.clients[id]).sent| == |h'.history|
                <==> !PublishedWhileAway(steps, id))
  {
    hide HistoryOk, HubRing.RingOk, ClientsOk, ChannelOk, Run, Resume, NoResume, PublishedWhileAway, LeftIn;
    ResumableHasChannel(g, id);
    ResumedStart(g, id);
    var h1 := Resume(g, id, Some(Reached(g, id)));
    ResumeKeepsInv(g, id, Some(Reached(g, id)));
    RunSince(h1, id, steps);
    RunExtendsHistory(h1, steps);
    LatestOk(Run(h1, steps), id);
  }

  lemma JoinRound(g: Hub, h': Hub, id: nat, taken: seq<Event>, start: nat, reached: bool)
    requires JoinsUp(g, id, taken, start, reached) && ChannelOk(Latest(g.clients[id]), g.history)
    requires id in h'.clients && h'.clients[id].channels != [] && g.history <= h'.history
    requires ChannelOk(Latest(h'.clients[id]), h'.history)
    requires Latest(h'.clients[id]).start == if Reached(g, id) < Evicted(g) then Evicted(g) else Reached(g, id)
    ensures JoinsUp(h', id, taken + TakenOff(g, id), start, reached && Evicted(g) <= Reached(g, id))
  {
    hide Describes;
    var c := Latest(g.clients[id]);
    var all := taken + TakenOff(g, id);
    if reached && Evicted(g) <= Reached(g, id) {
      forall k | 0 <= k < |all| ensures Describes(all[k], h'.history[start + k]) {
        if k < |taken| {
          assert Describes(taken[k], g.history[start + k]);
        } else {
          assert all[k] == c.sent[k - |taken|];
          assert Describes(c.sent[k - |taken|], g.history[c.start + (k - |taken|)]);
        }
      }
    }
  }

  lemma {:induction false} RoundsJoinUp(h: Hub, id: nat, rounds: seq<seq<Step>>)
    requires Inv(h) && id in h.clients && LastResumeSucceeds(h, id, rounds) && OneResumeEach(rounds, id)
    ensures h.clients[id].channels != []
    ensures JoinsUp(Reconnected(h, id, rounds), id, TakenBefore(h, id, rounds), Latest(h.clients[id]).start,
                    RingReached(h, id, rounds))
  {
    hide HistoryOk, HubRing.RingOk, ClientsOk, Run, Resume, NoResume, ChannelOk, Describes, CanResume;
    if rounds == [] {
      ResumableHasChannel(h, id);
      StartJoins(h, id);
    } else {
      var front, steps := rounds[..|rounds| - 1], rounds[|rounds| - 1];
      EarlierResumeSucceeded(h, id, rounds);
      RoundsJoinUp(h, id, front);
      var g := Reconnected(h, id, front);
      ReconnectedInv(h, id, front);
      OneRound(g, id, steps);
      hide JoinsUp;
      JoinRound(g, Reconnected(h, id, rounds), id, TakenBefore(h, id, front), Latest(h.clients[id]).start,
                RingReached(h, id, front));
    }
  }

  lemma StartJoins(h: Hub, id: nat)
    requires id in h.clients && h.clients[id].channels != [] && ChannelOk(Latest(h.clients[id]), h.history)
    ensures JoinsUp(h, id, [], Latest(h.clients[id]).start, true)
  {
  }

  /**
   However often a client reconnects, resuming each time with the number it reached, and whatever
   else happens: if its last resume succeeded, all it took before, followed by what its newest
   channel is sent, is every chunk once and in order, exactly when at each resume the ring reached
   back to that number and, since the last, nothing was published while it was gone again.
   */
  lemma SeamlessReconnects(h: Hub, id: nat, rounds: seq<seq<Step>>)
    requires Inv(h) && id in h.clients && rounds != []
    requires OneResumeEach(rounds, id) && LastResumeSucceeds(h, id, rounds)
    ensures h.clients[id].channels != []
    ensures var g := Reconnected(h, id, rounds);
            && id in g.clients && g.clients[id].channels != []
            && (Continues(TakenBefore(h, id, rounds) + Latest(g.clients[id]).sent, Latest(h.clients[id]).start, g.history)
                <==> RingReached(h, id, rounds) && !PublishedWhileAway(rounds[|rounds| - 1], id))
  {
    var front, steps := rounds[..|rounds| - 1], rounds[|rounds| - 1];
    RoundsJoinUp(h, id, rounds);
    ReconnectedInv(h, id, front);
    OneRound(Reconnected(h, id, front), id, steps);
    var g := Reconnected(h, id, rounds);
    hide Inv, CanResume, Run, Resume, Reconnected, PublishedWhileAway, RingReached, TakenBefore;
    JoinedStream(g, id, TakenBefore(h, id, rounds), Latest(h.clients[id]).start, RingReached(h, id, rounds),
                 PublishedWhileAway(steps, id));
  }

  lemma JoinedStream(g: Hub, id: nat, taken: seq<Event>, start: nat, reached: bool, missed: bool)
    requires JoinsUp(g, id, taken, start, reached) && ChannelOk(Latest(g.clients[id]), g.history)
    requires Latest(g.clients[id]).start + |Latest(g.clients[id]).sent| == |g.history| <==> !missed
    ensures Continues(taken + Latest(g.clients[id]).sent, start, g.history) <==> reached && !missed
  {
    hide Describes;
    var sent := Latest(g.clients[id]).sent;
    if reached && !missed {
      StreamsJoin(taken, sent, start, Latest(g.clients[id]).start, g.history);
    }
  }
}
