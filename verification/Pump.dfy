/** The per-session pump: its state machine, what it publishes, and the order it tears down in. */
module Pump {
  import opened Wrappers

  datatype SessionState = Starting | Running | Waiting | Exited

  datatype StdinMode = Pty | NullSink

  /** What the pump's select wakes up for; a time is when the chunk arrived or the tick fired. */
  datatype Event = Chunk(bytes: seq<byte>, now: nat) | Promote | Tick(now: nat)

  /** What a session does to the world, in order. */
  datatype Effect =
    | Register
    | Cache(state: SessionState)
    | Persist(state: SessionState, exitCode: Option<int>)
    | Publish(state: SessionState, exitCode: Option<int>)
    | HubPublish(bytes: seq<byte>)
    | StoreChunk(bytes: seq<byte>)
    | Unregister
    | HubClose

  datatype Config = Config(stdinMode: StdinMode, waitingIdle: nat, persistChunks: bool)

  datatype View = View(state: SessionState, exitCode: Option<int>, lastOutputAt: Option<nat>, log: seq<Effect>)

  /** A spawned session: registered, and announced as starting. */
  const SPAWNED: View := View(Starting, None, None, [Cache(Starting), Register, Publish(Starting, None)])

  /** Enters a state: cached, persisted, published. */
  function Enter(v: View, s: SessionState, code: Option<int>): View {
    v.(state := s, exitCode := code, log := v.log + [Cache(s), Persist(s, code), Publish(s, code)])
  }

  predicate GoesIdle(cfg: Config, v: View, now: nat) {
    v.state == Running && v.lastOutputAt.Some? && SaturatingSub(now, v.lastOutputAt.value) >= cfg.waitingIdle
    && cfg.stdinMode == Pty
  }

  function OnEvent(cfg: Config, v: View, e: Event): View {
    match e
    case Chunk(bytes, now) =>
      var w := v.(lastOutputAt := Some(now));
      var u := if v.state == Starting || v.state == Waiting then Enter(w, Running, v.exitCode) else w;
      u.(log := u.log + [HubPublish(bytes)] + if cfg.persistChunks then [StoreChunk(bytes)] else [])
    case Promote => if v.state == Starting then Enter(v, Running, v.exitCode) else v
    case Tick(now) => if GoesIdle(cfg, v, now) then Enter(v, Waiting, v.exitCode) else v
  }

  function OnEvents(cfg: Config, events: seq<Event>): View {
    if events == [] then SPAWNED else OnEvent(cfg, OnEvents(cfg, events[..|events| - 1]), events[|events| - 1])
  }

  /** After the reader's end: the exit is recorded and announced, the registry entry goes, and then the hub closes. */
  function Finish(v: View, status: Option<int>): View {
    var w := Enter(v, Exited, status);
    w.(log := w.log + [Unregister, HubClose])
  }

  // The pump as the source writes it.

  class OutputPump {
    const cfg: Config
    var state: SessionState
    var exitCode: Option<int>
    var lastOutputAt: Option<nat>
    var log: seq<Effect>

    /** The pump of a session just spawned. */
    constructor (cfg: Config)
      ensures this.cfg == cfg && Now() == SPAWNED
    {
      this.cfg := cfg;
      state, exitCode, lastOutputAt := Starting, None, None;
      log := [Cache(Starting), Register, Publish(Starting, None)];
    }

    ghost function Now(): View
      reads this
    {
      View(state, exitCode, lastOutputAt, log)
    }

    method Do(e: Effect)
      modifies `log
      ensures log == old(log) + [e]
    {
      log := log + [e];
    }

    method PersistAndPublish(s: SessionState, code: Option<int>)
      modifies `log
      ensures log == old(log) + [Persist(s, code), Publish(s, code)]
    {
      Do(Persist(s, code));
      Do(Publish(s, code));
    }

    method OnChunk(bytes: seq<byte>, now: nat)
      requires exitCode == None
      modifies this
      ensures Now() == OnEvent(cfg, old(Now()), Chunk(bytes, now))
    {
      var nowState := None;
      lastOutputAt := Some(now);
      if state == Starting || state == Waiting {
        state := Running;
        Do(Cache(Running));
        nowState := Some(Running);
      }
      if nowState.Some? {
        PersistAndPublish(nowState.value, None);
      }
      Do(HubPublish(bytes));
      if cfg.persistChunks {
        Do(StoreChunk(bytes));
      }
    }

    method OnPromote()
      requires exitCode == None
      modifies this
      ensures Now() == OnEvent(cfg, old(Now()), Promote)
    {
      var promoted := false;
      if state == Starting {
        state := Running;
        Do(Cache(Running));
        promoted := true;
      }
      if promoted {
        PersistAndPublish(Running, None);
      }
    }

    method OnTick(now: nat)
      requires exitCode == None
      modifies this
      ensures Now() == OnEvent(cfg, old(Now()), Tick(now))
    {
      var transitioned := None;
      var idleLongEnough := lastOutputAt.Some? && SaturatingSub(now, lastOutputAt.value) >= cfg.waitingIdle;
      if state == Running && idleLongEnough && cfg.stdinMode == Pty {
        state := Waiting;
        Do(Cache(Waiting));
        transitioned := Some(Waiting);
      }
      if transitioned.Some? {
        PersistAndPublish(transitioned.value, None);
      }
    }

    /** Handles events until the reader ends, then the child's status: `None` when the wait itself failed. */
    method Run(events: seq<Event>, status: Option<int>)
      requires Now() == SPAWNED
      modifies this
      ensures Now() == Finish(OnEvents(cfg, events), status)
    {
      for i := 0 to |events|
        invariant Now() == OnEvents(cfg, events[..i])
        invariant exitCode == None
      {
        assert events[..i + 1][..i] == events[..i];
        match events[i] {
          case Chunk(bytes, now) => OnChunk(bytes, now);
          case Promote => OnPromote();
          case Tick(now) => OnTick(now);
        }
        NoExitCodeYet(cfg, events[..i + 1]);
        hide OnEvent;
      }
      assert events[..|events|] == events;
      state := Exited;
      exitCode := status;
      Do(Cache(Exited));
      PersistAndPublish(Exited, status);
      Do(Unregister);
      Do(HubClose);
    }
  }

  lemma {:induction false} NoExitCodeYet(cfg: Config, events: seq<Event>)
    ensures OnEvents(cfg, events).exitCode == None && OnEvents(cfg, events).state != Exited
  {
    if |events| > 0 {
      NoExitCodeYet(cfg, events[..|events| - 1]);
    }
  }

  // What is published.

  /** The states announced, in order. */
  function Published(log: seq<Effect>): seq<SessionState> {
    if log == [] then []
    else Published(log[..|log| - 1]) + if log[|log| - 1].Publish? then [log[|log| - 1].state] else []
  }

  /** The states the cache went through, in order. */
  function Cached(log: seq<Effect>): seq<SessionState> {
    if log == [] then []
    else Cached(log[..|log| - 1]) + if log[|log| - 1].Cache? then [log[|log| - 1].state] else []
  }

  /** The bytes handed to the hub, in order. */
  function Forwarded(log: seq<Effect>): seq<seq<byte>> {
    if log == [] then []
    else Forwarded(log[..|log| - 1]) + if log[|log| - 1].HubPublish? then [log[|log| - 1].bytes] else []
  }

  function Chunks(events: seq<Event>): seq<seq<byte>> {
    if events == [] then []
    else Chunks(events[..|events| - 1]) + if events[|events| - 1].Chunk? then [events[|events| - 1].bytes] else []
  }

  lemma Snoc(log: seq<Effect>, e: Effect)
    ensures Published(log + [e]) == Published(log) + if e.Publish? then [e.state] else []
    ensures Cached(log + [e]) == Cached(log) + if e.Cache? then [e.state] else []
    ensures Forwarded(log + [e]) == Forwarded(log) + if e.HubPublish? then [e.bytes] else []
  {
    assert (log + [e])[..|log|] == log;
  }

  lemma EnterPublishes(v: View, s: SessionState, code: Option<int>)
    ensures Published(Enter(v, s, code).log) == Published(v.log) + [s]
    ensures Cached(Enter(v, s, code).log) == Cached(v.log) + [s]
    ensures Forwarded(Enter(v, s, code).log) == Forwarded(v.log)
  {
    hide Published, Cached, Forwarded;
    Snoc(v.log, Cache(s));
    Snoc(v.log + [Cache(s)], Persist(s, code));
    Snoc(v.log + [Cache(s)] + [Persist(s, code)], Publish(s, code));
    assert Enter(v, s, code).log == v.log + [Cache(s)] + [Persist(s, code)] + [Publish(s, code)];
  }

  /** The state a running session is in after its k-th announcement: starting, then running and waiting by turns. */
  function Expected(k: nat): SessionState {
    if k == 0 then Starting else if k % 2 == 1 then Running else Waiting
  }

  /** A trace of announcements before the exit. */
  predicate Alternates(t: seq<SessionState>) {
    |t| > 0 && forall k :: 0 <= k < |t| ==> t[k] == Expected(k)
  }

  /** Starting (Running (Waiting Running)* Waiting?)? Exited. */
  predicate Legal(t: seq<SessionState>) {
    |t| > 1 && Alternates(t[..|t| - 1]) && t[|t| - 1] == Exited
  }

  predicate Consistent(v: View) {
    && Alternates(Published(v.log)) && Cached(v.log) == Published(v.log)
    && v.state == Published(v.log)[|Published(v.log)| - 1]
  }

  /** A chunk's own effects announce nothing. */
  lemma ForwardingIsSilent(log: seq<Effect>, bytes: seq<byte>, persist: bool)
    ensures var after := log + [HubPublish(bytes)] + if persist then [StoreChunk(bytes)] else [];
            && Published(after) == Published(log) && Cached(after) == Cached(log)
            && Forwarded(after) == Forwarded(log) + [bytes]
  {
    hide Published, Cached, Forwarded;
    Snoc(log, HubPublish(bytes));
    Snoc(log + [HubPublish(bytes)], StoreChunk(bytes));
    assert log + [HubPublish(bytes)] + [] == log + [HubPublish(bytes)];
  }

  lemma EventKeepsConsistent(cfg: Config, v: View, e: Event)
    requires Consistent(v)
    ensures Consistent(OnEvent(cfg, v, e))
    ensures Forwarded(OnEvent(cfg, v, e).log) == Forwarded(v.log) + if e.Chunk? then [e.bytes] else []
  {
    hide Published, Cached, Forwarded;
    var w := if e.Chunk? then v.(lastOutputAt := Some(e.now)) else v;
    EnterPublishes(w, Running, v.exitCode);
    EnterPublishes(w, Waiting, v.exitCode);
    if e.Chunk? {
      var u := if v.state == Starting || v.state == Waiting then Enter(w, Running, v.exitCode) else w;
      ForwardingIsSilent(u.log, e.bytes, cfg.persistChunks);
    }
    hide Enter;
  }

  lemma SpawnedConsistent()
    ensures Consistent(SPAWNED) && Published(SPAWNED.log) == [Starting] && Forwarded(SPAWNED.log) == []
  {
    Snoc([], Cache(Starting));
    Snoc([Cache(Starting)], Register);
    Snoc([Cache(Starting), Register], Publish(Starting, None));
    assert SPAWNED.log == [Cache(Starting), Register] + [Publish(Starting, None)];
  }

  /** Between events the cached state is the last one announced, and every chunk went to the hub in order. */
  lemma {:induction false} RunIsConsistent(cfg: Config, events: seq<Event>)
    ensures Consistent(OnEvents(cfg, events))
    ensures Forwarded(OnEvents(cfg, events).log) == Chunks(events)
  {
    hide Consistent, OnEvent, Forwarded;
    if |events| == 0 {
      SpawnedConsistent();
    } else {
      var front := events[..|events| - 1];
      RunIsConsistent(cfg, front);
      EventKeepsConsistent(cfg, OnEvents(cfg, front), events[|events| - 1]);
    }
  }

  function TraceOf(cfg: Config, events: seq<Event>, status: Option<int>): seq<SessionState> {
    Published(Finish(OnEvents(cfg, events), status).log)
  }

  lemma FinishPublishes(v: View, status: Option<int>)
    ensures Published(Finish(v, status).log) == Published(v.log) + [Exited]
    ensures Forwarded(Finish(v, status).log) == Forwarded(v.log)
  {
    hide Published, Cached, Forwarded;
    var w := Enter(v, Exited, status);
    EnterPublishes(v, Exited, status);
    Snoc(w.log, Unregister);
    Snoc(w.log + [Unregister], HubClose);
    assert Finish(v, status).log == w.log + [Unregister] + [HubClose];
  }

  /** Every run of the pump announces a legal trace and hands on exactly the chunks it read. */
  lemma EveryTraceIsLegal(cfg: Config, events: seq<Event>, status: Option<int>)
    ensures Legal(TraceOf(cfg, events, status))
    ensures Forwarded(Finish(OnEvents(cfg, events), status).log) == Chunks(events)
  {
    hide Published, Forwarded, OnEvents, Finish;
    RunIsConsistent(cfg, events);
    FinishPublishes(OnEvents(cfg, events), status);
    var t := Published(OnEvents(cfg, events).log);
    assert (t + [Exited])[..|t|] == t;
  }

  /** When the last chunk of a run came. */
  function LastChunkAt(events: seq<Event>): Option<nat> {
    if events == [] then None
    else if events[|events| - 1].Chunk? then Some(events[|events| - 1].now)
    else LastChunkAt(events[..|events| - 1])
  }

  /** The newest announcement. */
  function LastAnnounced(log: seq<Effect>): Option<SessionState> {
    if Published(log) == [] then None else Some(Published(log)[|Published(log)| - 1])
  }

  lemma {:induction false} LastChunkIsRemembered(cfg: Config, events: seq<Event>)
    ensures OnEvents(cfg, events).lastOutputAt == LastChunkAt(events)
  {
    if |events| > 0 {
      LastChunkIsRemembered(cfg, events[..|events| - 1]);
    }
  }

  /** A session has been silent long enough at `now`; with no idle time to wait for, any time is. */
  predicate SilentAt(cfg: Config, events: seq<Event>, now: nat) {
    LastChunkAt(events).Some? && (LastChunkAt(events).value + cfg.waitingIdle <= now || cfg.waitingIdle == 0)
  }

  /** What entering a state does. */
  function Entering(s: SessionState): seq<Effect> {
    [Cache(s), Persist(s, None), Publish(s, None)]
  }

  /** What one more event makes a session do, by what it last announced and whether it has been silent long enough. */
  function Reaction(cfg: Config, announced: Option<SessionState>, silent: bool, e: Event): seq<Effect> {
    match e
    case Chunk(bytes, _) =>
      (if announced == Some(Starting) || announced == Some(Waiting) then Entering(Running) else [])
      + [HubPublish(bytes)] + (if cfg.persistChunks then [StoreChunk(bytes)] else [])
    case Promote => if announced == Some(Starting) then Entering(Running) else []
    case Tick(_) => if cfg.stdinMode == Pty && announced == Some(Running) && silent then Entering(Waiting) else []
  }

  /** The same by what the pump remembers. */
  lemma EventReacts(cfg: Config, v: View, e: Event, silent: bool)
    requires v.exitCode.None?
    requires e.Tick? ==> (silent <==> v.lastOutputAt.Some? && SaturatingSub(e.now, v.lastOutputAt.value) >= cfg.waitingIdle)
    ensures OnEvent(cfg, v, e).log == v.log + Reaction(cfg, Some(v.state), silent, e)
  {
    hide SaturatingSub;
    assert v.log + [] == v.log;
    if e.Chunk? {
      assert v.log + (Entering(Running) + [HubPublish(e.bytes)]) == v.log + Entering(Running) + [HubPublish(e.bytes)];
    }
  }

  lemma {:induction false} LastStateAnnounced(cfg: Config, events: seq<Event>)
    ensures LastAnnounced(OnEvents(cfg, events).log) == Some(OnEvents(cfg, events).state)
  {
    hide OnEvents, Published, Cached, Forwarded;
    RunIsConsistent(cfg, events);
  }

  /**
   Every event of every run, in full: Running is entered by a chunk from Starting or Waiting and by a
   promotion from Starting; Waiting by a tick of a running terminal session that comes the idle time
   or more after its last chunk; every chunk reaches the hub, and is stored just when it is to be.
   */
  lemma ReactsExactly(cfg: Config, events: seq<Event>, e: Event)
    ensures OnEvents(cfg, events + [e]).log
            == OnEvents(cfg, events).log
               + Reaction(cfg, LastAnnounced(OnEvents(cfg, events).log), e.Tick? && SilentAt(cfg, events, e.now), e)
  {
    OnEventsSnoc(cfg, events, e);
    LastStateAnnounced(cfg, events);
    NoExitCodeYet(cfg, events);
    LastChunkIsRemembered(cfg, events);
    hide OnEvents, OnEvent, Reaction, LastAnnounced, LastChunkAt;
    EventReacts(cfg, OnEvents(cfg, events), e, e.Tick? && SilentAt(cfg, events, e.now));
  }

  lemma ReactionPublishes(cfg: Config, announced: Option<SessionState>, silent: bool, e: Event)
    ensures Published(Reaction(cfg, announced, silent, e))
            == if e.Chunk? && (announced == Some(Starting) || announced == Some(Waiting)) then [Running]
               else if e.Promote? && announced == Some(Starting) then [Running]
               else if e.Tick? && cfg.stdinMode == Pty && announced == Some(Running) && silent then [Waiting]
               else []
  {
    EnteringPublishes(Running);
    EnteringPublishes(Waiting);
    NothingYet();
    if e.Chunk? {
      ForwardingIsSilent(if announced == Some(Starting) || announced == Some(Waiting) then Entering(Running) else [],
                         e.bytes, cfg.persistChunks);
    }
    hide Published, Entering;
  }

  lemma EnteringPublishes(s: SessionState)
    ensures Published(Entering(s)) == [s]
  {
    hide Published;
    NothingYet();
    Snoc([], Cache(s));
    Snoc([Cache(s)], Persist(s, None));
    Snoc([Cache(s), Persist(s, None)], Publish(s, None));
    assert [] + [Cache(s)] == [Cache(s)];
    assert [Cache(s)] + [Persist(s, None)] == [Cache(s), Persist(s, None)];
    assert Entering(s) == [Cache(s), Persist(s, None)] + [Publish(s, None)];
  }

  lemma {:induction false} PublishedConcat(a: seq<Effect>, b: seq<Effect>)
    ensures Published(a + b) == Published(a) + Published(b)
  {
    if b == [] {
      assert a + b == a;
    } else {
      PublishedConcat(a, b[..|b| - 1]);
      assert (a + b)[..|a + b| - 1] == a + b[..|b| - 1];
    }
  }

  /**
   What every event of every run announces: a tick announces Waiting if and only if the session has a
   terminal, announced Running last, and its last chunk lies at least the idle time back; Running is
   announced exactly by a chunk from Starting or Waiting and by a promotion from Starting.
   */
  lemma AnnouncesExactly(cfg: Config, events: seq<Event>, e: Event)
    ensures var before, after := Published(OnEvents(cfg, events).log), Published(OnEvents(cfg, events + [e]).log);
            var last := LastAnnounced(OnEvents(cfg, events).log);
            after == before
              + if e.Chunk? && (last == Some(Starting) || last == Some(Waiting)) then [Running]
                else if e.Promote? && last == Some(Starting) then [Running]
                else if e.Tick? && cfg.stdinMode == Pty && last == Some(Running) && SilentAt(cfg, events, e.now) then [Waiting]
                else []
  {
    ReactsExactly(cfg, events, e);
    var last, silent := LastAnnounced(OnEvents(cfg, events).log), e.Tick? && SilentAt(cfg, events, e.now);
    ReactionPublishes(cfg, last, silent, e);
    PublishedConcat(OnEvents(cfg, events).log, Reaction(cfg, last, silent, e));
    hide OnEvents, Published, Reaction, LastAnnounced, SilentAt;
  }

  /** A session without a terminal never waits. */
  lemma {:induction false} NullSinkNeverWaits(cfg: Config, events: seq<Event>)
    requires cfg.stdinMode == NullSink
    ensures |Published(OnEvents(cfg, events).log)| <= 2
  {
    hide Published, Forwarded, Cached;
    if |events| == 0 {
      SpawnedConsistent();
    } else {
      var front, last := events[..|events| - 1], events[|events| - 1];
      var v := OnEvents(cfg, front);
      NullSinkNeverWaits(cfg, front);
      RunIsConsistent(cfg, front);
      var w := if last.Chunk? then v.(lastOutputAt := Some(last.now)) else v;
      EnterPublishes(w, Running, v.exitCode);
      if last.Chunk? {
        var u := if v.state == Starting || v.state == Waiting then Enter(w, Running, v.exitCode) else w;
        ForwardingIsSilent(u.log, last.bytes, cfg.persistChunks);
      }
      hide Enter;
    }
  }

  lemma NullSinkTrace(cfg: Config, events: seq<Event>, status: Option<int>)
    requires cfg.stdinMode == NullSink
    ensures TraceOf(cfg, events, status) in {[Starting, Exited], [Starting, Running, Exited]}
  {
    hide Published, Forwarded, OnEvents, Finish;
    NullSinkNeverWaits(cfg, events);
    RunIsConsistent(cfg, events);
    FinishPublishes(OnEvents(cfg, events), status);
    var t := Published(OnEvents(cfg, events).log);
    assert t == if |t| == 1 then [Starting] else [Starting, Running];
    assert [Starting] + [Exited] == [Starting, Exited];
    assert [Starting, Running] + [Exited] == [Starting, Running, Exited];
  }

  /** When an event happens, if it is stamped. */
  function TimeOf(e: Event): Option<nat> {
    match e
    case Chunk(_, now) => Some(now)
    case Promote => None
    case Tick(now) => Some(now)
  }

  /** A run the source can see: time does not go back, and every chunk holds something. */
  predicate Realistic(events: seq<Event>) {
    && (forall k :: 0 <= k < |events| && events[k].Chunk? ==> events[k].bytes != [])
    && (forall j, k :: 0 <= j < k < |events| && TimeOf(events[j]).Some? && TimeOf(events[k]).Some? ==>
          TimeOf(events[j]).value <= TimeOf(events[k]).value)
  }

  /** One idle time after the other. */
  function Clock(cfg: Config, k: nat): nat {
    if k == 0 then 0 else Clock(cfg, k - 1) + cfg.waitingIdle
  }

  /** Output and silence by turns, one idle time apart. */
  function BusyEvent(cfg: Config, k: nat): Event {
    if k % 2 == 1 then Chunk([0], Clock(cfg, k)) else Tick(Clock(cfg, k))
  }

  function Busy(cfg: Config, k: nat): seq<Event> {
    if k == 0 then [] else Busy(cfg, k - 1) + [BusyEvent(cfg, k)]
  }

  lemma {:induction false} BusyIsRealistic(cfg: Config, k: nat)
    ensures Realistic(Busy(cfg, k))
    ensures forall i :: 0 <= i < |Busy(cfg, k)| ==>
              TimeOf(Busy(cfg, k)[i]).Some? && TimeOf(Busy(cfg, k)[i]).value <= Clock(cfg, k)
  {
    if k > 0 {
      BusyIsRealistic(cfg, k - 1);
      assert TimeOf(BusyEvent(cfg, k)) == Some(Clock(cfg, k));
      hide TimeOf;
    }
  }

  lemma OutputAnnounces(cfg: Config, v: View, bytes: seq<byte>, now: nat)
    requires Consistent(v) && (v.state == Starting || v.state == Waiting)
    ensures |Published(OnEvent(cfg, v, Chunk(bytes, now)).log)| == |Published(v.log)| + 1
    ensures OnEvent(cfg, v, Chunk(bytes, now)).lastOutputAt == Some(now)
  {
    hide Published, Forwarded, Cached;
    var w := v.(lastOutputAt := Some(now));
    EnterPublishes(w, Running, v.exitCode);
    ForwardingIsSilent(Enter(w, Running, v.exitCode).log, bytes, cfg.persistChunks);
  }

  lemma SilenceAnnounces(cfg: Config, v: View, now: nat)
    requires Consistent(v) && v.state == Running && cfg.stdinMode == Pty
    requires v.lastOutputAt.Some? && v.lastOutputAt.value + cfg.waitingIdle <= now
    ensures |Published(OnEvent(cfg, v, Tick(now)).log)| == |Published(v.log)| + 1
    ensures OnEvent(cfg, v, Tick(now)).lastOutputAt == v.lastOutputAt
  {
    hide Published, Forwarded, Cached;
    EnterPublishes(v, Waiting, v.exitCode);
  }

  lemma OnEventsSnoc(cfg: Config, events: seq<Event>, e: Event)
    ensures OnEvents(cfg, events + [e]) == OnEvent(cfg, OnEvents(cfg, events), e)
  {
    assert (events + [e])[..|events|] == events;
    hide OnEvent;
  }

  lemma NoEvents(cfg: Config)
    ensures OnEvents(cfg, []) == SPAWNED
  {
  }

  lemma {:induction false} BusyTrace(cfg: Config, k: nat)
    requires cfg.stdinMode == Pty
    ensures |Published(OnEvents(cfg, Busy(cfg, k)).log)| == k + 1
    ensures k % 2 == 1 ==> OnEvents(cfg, Busy(cfg, k)).lastOutputAt == Some(Clock(cfg, k))
  {
    hide Published, Forwarded, Cached, OnEvent, OnEvents;
    if k == 0 {
      SpawnedConsistent();
      NoEvents(cfg);
    } else {
      var front := Busy(cfg, k - 1);
      OnEventsSnoc(cfg, front, BusyEvent(cfg, k));
      BusyTrace(cfg, k - 1);
      RunIsConsistent(cfg, front);
      var v := OnEvents(cfg, front);
      hide Busy;
      assert v.state == Expected(k - 1);
      if k % 2 == 1 {
        OutputAnnounces(cfg, v, [0], Clock(cfg, k));
      } else {
        SilenceAnnounces(cfg, v, Clock(cfg, k));
      }
    }
  }

  /** The traces of terminal sessions, on a clock that does not go back, are exactly the legal ones. */
  lemma LegalIffHappens(cfg: Config, t: seq<SessionState>, status: Option<int>)
    requires cfg.stdinMode == Pty
    ensures Legal(t) <==> exists events :: Realistic(events) && TraceOf(cfg, events, status) == t
  {
    hide Published, Forwarded, Cached, OnEvents, Finish, TraceOf, Realistic;
    if Legal(t) {
      var events := Busy(cfg, |t| - 2);
      BusyTrace(cfg, |t| - 2);
      BusyIsRealistic(cfg, |t| - 2);
      EveryTraceIsLegal(cfg, events, status);
      BusyTraceLength(cfg, events, status);
      LegalByLength(TraceOf(cfg, events, status), t);
    }
    if exists events :: Realistic(events) && TraceOf(cfg, events, status) == t {
      var events :| Realistic(events) && TraceOf(cfg, events, status) == t;
      EveryTraceIsLegal(cfg, events, status);
    }
  }

  lemma BusyTraceLength(cfg: Config, events: seq<Event>, status: Option<int>)
    ensures |TraceOf(cfg, events, status)| == |Published(OnEvents(cfg, events).log)| + 1
  {
    hide Published, OnEvents, Finish;
    FinishPublishes(OnEvents(cfg, events), status);
  }

  lemma LegalByLength(a: seq<SessionState>, b: seq<SessionState>)
    requires Legal(a) && Legal(b) && |a| == |b|
    ensures a == b
  {
    hide Expected;
    var n := |a| - 1;
    assert forall k :: 0 <= k < n ==> a[k] == a[..n][k] == Expected(k);
    assert forall k :: 0 <= k < n ==> b[k] == b[..n][k] == Expected(k);
  }

  /** The hub closes last: after the exit is cached, persisted and announced and the registry entry is gone, each once. */
  lemma TeardownOrder(cfg: Config, events: seq<Event>, status: Option<int>)
    ensures var log := Finish(OnEvents(cfg, events), status).log;
            && log == OnEvents(cfg, events).log
                      + [Cache(Exited), Persist(Exited, status), Publish(Exited, status), Unregister, HubClose]
            && forall k :: 0 <= k < |log| - 5 ==> !log[k].Unregister? && !log[k].HubClose?
                                                  && log[k] != Publish(Exited, status)
  {
    LiveEffects(cfg, events);
    hide OnEvents, Published;
    var v := OnEvents(cfg, events);
    assert Finish(v, status).log == v.log + [Cache(Exited), Persist(Exited, status), Publish(Exited, status), Unregister, HubClose];
  }

  predicate Live(e: Effect) {
    !e.Unregister? && !e.HubClose? && (e.Publish? ==> e.state != Exited)
  }

  predicate AllLive(log: seq<Effect>) {
    forall k :: 0 <= k < |log| ==> Live(log[k])
  }

  lemma EventKeepsLive(cfg: Config, v: View, e: Event)
    requires AllLive(v.log)
    ensures AllLive(OnEvent(cfg, v, e).log)
  {
  }

  lemma {:induction false} LiveEffects(cfg: Config, events: seq<Event>)
    ensures AllLive(OnEvents(cfg, events).log)
  {
    if |events| > 0 {
      LiveEffects(cfg, events[..|events| - 1]);
      EventKeepsLive(cfg, OnEvents(cfg, events[..|events| - 1]), events[|events| - 1]);
      hide OnEvent, AllLive;
    }
  }

  /** The announcements are the cached states so far, or lag by the one now being announced. */
  predicate Lags(log: seq<Effect>) {
    Cached(log) == Published(log) || (|Cached(log)| > 0 && Cached(log)[..|Cached(log)| - 1] == Published(log))
  }

  predicate AlwaysLags(log: seq<Effect>) {
    forall n :: 0 <= n <= |log| ==> Lags(log[..n])
  }

  lemma LagsSnoc(log: seq<Effect>, e: Effect)
    requires AlwaysLags(log)
    requires e.Cache? || e.Publish? ==> Lags(log + [e])
    ensures AlwaysLags(log + [e])
  {
    Snoc(log, e);
    assert log[..|log|] == log;
    assert Lags(log);
    forall n | 0 <= n <= |log + [e]| ensures Lags((log + [e])[..n]) {
      if n <= |log| {
        assert (log + [e])[..n] == log[..n];
      } else {
        assert (log + [e])[..n] == log + [e];
      }
    }
    hide Published, Cached;
  }

  lemma EnterLags(v: View, s: SessionState, code: Option<int>)
    requires AlwaysLags(v.log) && Cached(v.log) == Published(v.log)
    ensures AlwaysLags(Enter(v, s, code).log)
  {
    hide Published, Cached, AlwaysLags;
    var a := v.log + [Cache(s)];
    var b := a + [Persist(s, code)];
    Snoc(v.log, Cache(s));
    assert (Published(v.log) + [s])[..|Published(v.log)|] == Published(v.log);
    LagsSnoc(v.log, Cache(s));
    Snoc(a, Persist(s, code));
    LagsSnoc(a, Persist(s, code));
    Snoc(b, Publish(s, code));
    LagsSnoc(b, Publish(s, code));
    assert Enter(v, s, code).log == b + [Publish(s, code)];
  }

  lemma EventKeepsLags(cfg: Config, v: View, e: Event)
    requires Consistent(v) && AlwaysLags(v.log)
    ensures AlwaysLags(OnEvent(cfg, v, e).log)
  {
    hide Published, Cached, AlwaysLags;
    var w := if e.Chunk? then v.(lastOutputAt := Some(e.now)) else v;
    EnterLags(w, Running, v.exitCode);
    EnterLags(w, Waiting, v.exitCode);
    if e.Chunk? {
      var u := if v.state == Starting || v.state == Waiting then Enter(w, Running, v.exitCode) else w;
      LagsSnoc(u.log, HubPublish(e.bytes));
      LagsSnoc(u.log + [HubPublish(e.bytes)], StoreChunk(e.bytes));
      assert u.log + [HubPublish(e.bytes)] + [] == u.log + [HubPublish(e.bytes)];
    }
    hide Enter;
  }

  /** At every moment of every run, mid-event too, the cached state is the last announced or the one about to be. */
  lemma {:induction false} CacheNeverDrifts(cfg: Config, events: seq<Event>)
    ensures AlwaysLags(OnEvents(cfg, events).log)
  {
    hide OnEvent, Consistent, AlwaysLags;
    if |events| == 0 {
      SpawnLags();
    } else {
      CacheNeverDrifts(cfg, events[..|events| - 1]);
      RunIsConsistent(cfg, events[..|events| - 1]);
      EventKeepsLags(cfg, OnEvents(cfg, events[..|events| - 1]), events[|events| - 1]);
    }
  }

  lemma SpawnLags()
    ensures AlwaysLags(SPAWNED.log)
  {
    hide Published, Cached;
    var a: seq<Effect> := [];
    assert Published(a) == [] && Cached(a) == [] by { NothingYet(); }
    assert AlwaysLags(a) by { assert a[..0] == a; }
    Snoc(a, Cache(Starting));
    assert ([]+[Starting])[..0] == [];
    LagsSnoc(a, Cache(Starting));
    var b := a + [Cache(Starting)];
    LagsSnoc(b, Register);
    Snoc(b, Register);
    Snoc(b + [Register], Publish(Starting, None));
    LagsSnoc(b + [Register], Publish(Starting, None));
    assert SPAWNED.log == b + [Register] + [Publish(Starting, None)];
  }

  lemma NothingYet()
    ensures Published([]) == [] && Cached([]) == []
  {
  }

  /** Each effect comes after what must precede it: output after the running state was announced, a stored chunk right after the hub had it, an announcement right after its state was cached and persisted. */
  predicate InOrder(log: seq<Effect>, k: nat)
    requires k < |log|
  {
    match log[k]
    case HubPublish(_) => Published(log[..k]) != [] && Published(log[..k])[|Published(log[..k])| - 1] == Running
    case StoreChunk(bytes) => k > 0 && log[k - 1] == HubPublish(bytes)
    case Publish(s, code) => k >= 3 ==> log[k - 1] == Persist(s, code) && log[k - 2] == Cache(s)
    case _ => true
  }

  predicate AllInOrder(log: seq<Effect>) {
    forall k :: 0 <= k < |log| ==> InOrder(log, k)
  }

  lemma InOrderSnoc(log: seq<Effect>, e: Effect)
    requires AllInOrder(log) && InOrder(log + [e], |log|)
    ensures AllInOrder(log + [e])
  {
    hide Published;
    forall k | 0 <= k < |log + [e]| ensures InOrder(log + [e], k) {
      if k < |log| {
        assert InOrder(log, k);
        assert (log + [e])[..k] == log[..k];
      }
    }
  }

  lemma EnterInOrder(v: View, s: SessionState, code: Option<int>)
    requires AllInOrder(v.log)
    ensures AllInOrder(Enter(v, s, code).log)
  {
    hide Published, AllInOrder;
    var a := v.log + [Cache(s)];
    var b := a + [Persist(s, code)];
    InOrderSnoc(v.log, Cache(s));
    InOrderSnoc(a, Persist(s, code));
    InOrderSnoc(b, Publish(s, code));
    assert Enter(v, s, code).log == b + [Publish(s, code)];
  }

  lemma EventKeepsOrder(cfg: Config, v: View, e: Event)
    requires Consistent(v) && AllInOrder(v.log) && v.state != Exited
    ensures AllInOrder(OnEvent(cfg, v, e).log)
  {
    hide Published, Cached, AllInOrder;
    var w := if e.Chunk? then v.(lastOutputAt := Some(e.now)) else v;
    EnterInOrder(w, Running, v.exitCode);
    EnterInOrder(w, Waiting, v.exitCode);
    if e.Chunk? {
      EnterPublishes(w, Running, v.exitCode);
      var u := if v.state == Starting || v.state == Waiting then Enter(w, Running, v.exitCode) else w;
      var out := HubPublish(e.bytes);
      assert (u.log + [out])[..|u.log|] == u.log;
      InOrderSnoc(u.log, out);
      InOrderSnoc(u.log + [out], StoreChunk(e.bytes));
      assert u.log + [out] + [] == u.log + [out];
    }
    hide Enter;
  }

  lemma SpawnInOrder()
    ensures AllInOrder(SPAWNED.log)
  {
    hide Published;
  }

  /** In every run: bytes reach the hub only while the announced state is running, and states are announced only when cached and persisted. */
  lemma {:induction false} EffectsInOrder(cfg: Config, events: seq<Event>, status: Option<int>)
    ensures AllInOrder(OnEvents(cfg, events).log)
    ensures AllInOrder(Enter(OnEvents(cfg, events), Exited, status).log)
  {
    hide OnEvent, Consistent, AllInOrder, Enter;
    if |events| == 0 {
      SpawnInOrder();
    } else {
      var front := events[..|events| - 1];
      EffectsInOrder(cfg, front, status);
      RunIsConsistent(cfg, front);
      NoExitCodeYet(cfg, front);
      EventKeepsOrder(cfg, OnEvents(cfg, front), events[|events| - 1]);
    }
    EnterInOrder(OnEvents(cfg, events), Exited, status);
  }
}
