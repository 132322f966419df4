# LazyAgents daemon: a verified model

This project models the parts of the LazyAgents daemon where a mistake is hard to see from one
function: the fan-out of session output, the two-step enable of crons, the executor's admission and
shutdown, the scheduler's entry table, the session pump and its writer lock, and the codecs and
arithmetic they rest on.

Each component is a specification on values (a state, its steps as functions, and runs of steps), the
properties of all its runs as lemmas, and, where the source updates state in place, a class or method
tied to that specification by its contract: undisturbed, it does exactly the specification's steps
(`Shutdown.Receiver` is the one drain loop, tied by `Shutdown.DrainHandlesAll`). A lock scope in the source is one step here; where a handler
drops its lock, or another task does not take it, the handler is split there.

| files | component |
|---|---|
| `HubModel`, `HubStreams`, `HubRing`, `HubRuns`, `HubDelivery`, `HubResume`, `HubReconnects`, `HubFairness`, `HubCharges`, `HubRoom`, `HubReceiving`, `OutputHub` | the per-session output hub |
| `Base64`, `Payloads`, `Framing` | payload encoding, chunking, wire frames |
| `CivilTime`, `Rfc3339` | Unix seconds to printed timestamps |
| `JsonZeros`, `CronSecurity`, `ConfirmationTokens`, `CronControlModel`, `CronEnable`, `CronTokens`, `CronPauses`, `CronContent`, `CronControl` | cron edits, confirmation, storage and heap |
| `ExecutorModel`, `ExecutorRuns`, `ExecutorLimits`, `ExecutorRows`, `ExecutorProgress`, `Executor`, `Shutdown`, `EntryTable` | admission, counters, shutdown, the heap of fire times |
| `Prometheus`, `PrometheusPrinter` | the metrics text and a reader that inverts it |
| `Pump`, `SingleWriter` | session lifecycle and writer lock |

`dafny verify dfyconfig.toml` checks the whole project. The date arithmetic is modelled from the
adapter crate; crates/la-daemon/src/health.rs and crates/la-daemon/src/dispatcher.rs hold copies of it.

## Where the code and its words part

The model follows the code. In these places a promise does not hold as worded; each line names
the lemmas that show where it fails and, as an if and only if, where it holds.

- The hub's header says drops are coalesced into one gap (hub.rs:9-14); the code sends one gap per
  dropped chunk (hub.rs:442-453), and that is what is modelled (`HubDelivery.DropsAreNotCoalesced`,
  and one event per chunk in every run by `HubDelivery.EveryRunStreams`).
- Dropping a subscription handle starts a park that can land after a resume; output published then is
  lost (`HubResume.StaleParkLosesOutput`, exact in `HubResume.SeamlessReconnect`).
- A receive still under way on a replaced receiver is charged to the new one, or cut off at zero
  (`HubCharges.MisdirectedAckHappens`, `HubCharges.ClampHappens`, exact in `HubCharges.AccountsOfEveryRun`).
- A subscription since an evicted number gets no gap for what is gone (`HubDelivery.SubscribeSince`).
- A replay can exceed its byte limit (`HubDelivery.ReplayMayExceedBudget`, exact in `HubDelivery.ReplayInEveryRun`).
- "Storage and the scheduler heap can't diverge" (cron_control.rs:13-24) leaves out auto-pause, which
  takes no lock: it leaves a heap entry behind (`CronContent.AutoPauseLeavesEntry`, exact in
  `CronContent.StrayIffPaused`) and can be undone
  by an upsert in flight (`CronEnable.AutoPauseCanBeLost`, exact in `CronEnable.UpsertEnablesIffPauseLost`).
- The fingerprint and the field comparison part on signed zeros and NaN budgets
  (`CronSecurity.FingerprintSeesChangeIff`). For the budget the database makes up for it, because its
  column keeps neither (`CronContent.RunKeepsStored`); the spawn arguments are stored as text, so the sign of
  a zero in them can change without a confirmation (`CronContent.ZeroSignSlipsThrough`, exact in
  `CronContent.UnchangedIff` and `CronContent.EnabledContentIff`).
- At shutdown a connection that does not end in time is cut off (runtime.rs:448-459), and a manual run
  on it with it: what it held of the two counters is never given back
  (`ExecutorProgress.AbortLeaks`, exact in `ExecutorLimits.ReleasesExactlyOnceIff`).
- A stop request before the heap loop is gone can lose fires (`Shutdown.StoppedWhileAliveIsUnsafe`, exact in
  `Shutdown.RequestStopIsSafeIff` and `Shutdown.SafeIff`).
- Old heap nodes are said to be discarded by version (heap.rs:227-229), but a deleted entry's versions
  start again at one, so an old node can match again (`EntryTables.ReinsertedCronFiresEarly`, exact in
  `EntryTables.InsertionIsSafeIff` and `EntryTables.AlwaysSafeIffNoRevivals`).
- The writer lock is checked before the terminal write, not held across it (`SingleWriter.WriteCanTrail`,
  exact in `SingleWriter.WriteIsHeldIff`).
- A global run limit of zero means no limit, so the bound is stated for limits that are set
  (`ExecutorLimits.GlobalLimitHolds`).
- The printed year is narrowed to 32 bits, and the text order ends at year 10000
  (`Rfc3339.YearFitsIff`, `Rfc3339.SortsExactlyBeforeYear10000`).
- A help line's unit cannot be told from a text that ends like one (`PrometheusPrinter.UnitIsAmbiguous`,
  exact in `PrometheusPrinter.PrintAlikeIff`).

## Model

| member | source | states |
|---|---|---|
| HubRuns.RunKeepsInv | crates/la-ipc/src/hub.rs:214-387 | Whatever sequence of publishes, subscribes, resumes, parks (stale ones too), evictions, closes, takes and acknowledgements happens, history, ring and every subscriber's channel stay consistent. |
| HubRuns.StepKeepsInv | crates/la-ipc/src/hub.rs:214-439 | Each single operation keeps that invariant. |
| HubRuns.PublishKeepsInv | crates/la-ipc/src/hub.rs:214-244 | Publishing appends exactly the payload's chunks to the history, numbered on from the last one. |
| HubDelivery.EveryRunStreams | crates/la-ipc/src/hub.rs:214-281 | In every run from a new hub, an attached subscriber's stream has one event per chunk since its start, numbers consecutive and each once; delivered plus dropped bytes equal the bytes published since then; and without a gap the delivered bytes are the published bytes. |
| HubDelivery.StreamIsExact | crates/la-ipc/src/hub.rs:454-495 | The same for one channel: each event is that chunk's output, or a gap with from = to = its number and its exact length. |
| HubDelivery.StreamSinceStart | crates/la-ipc/src/hub.rs:214-281 | The accounting, counted from the channel's own start. |
| HubDelivery.HistoryIsPublished | crates/la-ipc/src/hub.rs:214-244 | The history decodes to the concatenation of all payloads ever published, chunking and base64 included. |
| HubDelivery.SubscribeSince | crates/la-ipc/src/hub.rs:253-281 | A subscription since s misses nothing after s if and only if the ring still reaches back to s + 1; evicted chunks get no gap notice. |
| HubRoom.DeliveredIffRoom | crates/la-ipc/src/hub.rs:454-475 | In every run without an acknowledgement from a replaced receiver, each chunk of a payload published to an attached subscriber is delivered if and only if its decoded bytes, added to the bytes delivered on its newest channel and not acknowledged, are at most the queue budget; otherwise its place is taken by its gap. |
| HubRoom.NoGapWithRoom | crates/la-ipc/src/hub.rs:454-475 | So a subscriber whose unacknowledged bytes and the payload fit the budget gets the payload byte for byte and no gap. |
| HubRoom.ReplayedIffRoom | crates/la-ipc/src/hub.rs:253-331 | In every run a subscribe or resume without a number starts at the end of the history, and one with a number right after it or at the oldest chunk held; each chunk replayed from there is delivered if and only if it fits the budget beside those delivered before it. |
| HubRoom.NoGapInCatchUp | crates/la-ipc/src/hub.rs:264-275 | So a backlog within the budget is replayed whole, without a gap. |
| HubReceiving.ReceivedInOrder | crates/la-ipc/src/hub.rs:538-550 | In every run what a receiver is handed is its channel's first events, each once and in order. |
| HubStreams.PushTracks | crates/la-ipc/src/hub.rs:454-495 | Offering one chunk to a subscriber extends its stream by exactly that chunk, delivered or as its gap (which of the two is in `HubRoom.DeliveredIffRoom`). |
| HubStreams.DeliverTracks | crates/la-ipc/src/hub.rs:232-241 | Fan-out keeps every subscriber's stream complete, skipping parked ones. |
| HubStreams.PushAllTracks | crates/la-ipc/src/hub.rs:265-274 | A catch-up replay brings a fresh channel to the end of the history. |
| HubResume.SeamlessReconnect | crates/la-ipc/src/hub.rs:294-331 | A client that consumed through s and resumes with s sees every later chunk exactly once, over both channels joined, if and only if the ring reached back to s + 1 and no publish came after a park of it (the stale park of the dropped handle) or a close; whatever else happens before its next resume, the old eviction timer firing included. |
| HubReconnects.SeamlessReconnects | crates/la-ipc/src/hub.rs:294-331 | Any number of reconnects, each with the number reached, whatever happens in each round, if the last resume succeeds: all that was taken before, followed by what the newest channel is sent, is every chunk once and in order, if and only if at each resume the ring reached back and since the last no publish came after a park or a close. |
| HubReconnects.EarlierResumeSucceeded | crates/la-ipc/src/hub.rs:294-299 | A removed id never returns: the last resume succeeds only if every one before it did. |
| HubResume.CompleteIffNeverAwayAtPublish | crates/la-ipc/src/hub.rs:342-355 | In any run up to the next resume a stream is complete if and only if nothing was published after a park of the subscription or a close; eviction timers make no difference. |
| HubResume.ResumeAgainstTimer | crates/la-ipc/src/hub.rs:357-375 | A resume against the eviction timer of the park: the timer coming second does nothing, however late; coming first it makes the resume fail if and only if it found the subscription parked past its deadline, and else changes nothing. |
| HubResume.RegisteredIff | crates/la-ipc/src/hub.rs:342-387 | In every run exactly three things decide whether an id is registered: the subscribe that hands it out, a close, and an eviction of it at or after the first park since it was last attached plus the grace period; a due timer does evict. |
| HubResume.ParkedIff | crates/la-ipc/src/hub.rs:342-355 | In every run a registered id is parked exactly with the deadline of the first park since it was last attached; a second park does not move it. |
| HubResume.StaleParkLosesOutput | crates/la-ipc/src/hub.rs:553-568 | A park that lands after a resume or attach loses the next published payload, silently. |
| HubResume.RemovalIsEarned | crates/la-ipc/src/hub.rs:360-387 | A subscription disappears only by a close, or by an eviction of its own after a park step whose deadline has passed with no resume since. |
| HubResume.ParkedMeansParkStep | crates/la-ipc/src/hub.rs:342-355 | A subscription parked with a deadline was parked by a park step that set it, and not resumed since. |
| HubResume.ResumeFailsOnlyWhenGone | crates/la-ipc/src/hub.rs:294-299 | In every run of a new hub a resume succeeds if and only if the id still has an entry: nothing ever marks one closed. |
| HubFairness.FairDispatch | crates/la-ipc/src/hub.rs:234-242 | Non-interference over two whole runs: with the same publishes and closes before a subscriber arrives, and the same publishes, closes and own steps after, it has the same channels, charge and ring whatever all others do before and after, however many they are and whatever number it is given. |
| HubFairness.FacetsStayEqual | crates/la-ipc/src/hub.rs:234-242 | Two subscribers that have observed the same go on doing so under the same steps of their own, whatever their numbers. |
| HubFairness.CoreIsProducers | crates/la-ipc/src/hub.rs:214-244 | Ring, history and numbering are made by the publishes and closes alone. |
| HubFairness.OnlyOwnStepsMatter | crates/la-ipc/src/hub.rs:234-242 | Erasing every other subscriber's steps from a run changes nothing i can observe. |
| HubRing.PublishKeepsRing | crates/la-ipc/src/hub.rs:224-232 | Publishing keeps the ring the fitting suffix of the history, numbered up to the newest chunk. |
| HubRing.RingIsLongestFittingSuffix | crates/la-ipc/src/hub.rs:224-232 | A suffix of the history since the last close fits the byte budget if and only if it is no longer than the ring. |
| HubRing.FitIsSuffix | crates/la-ipc/src/hub.rs:226-232 | Eviction drops from the front, down to the budget, and never one chunk more than needed. |
| HubRing.ReplayCovers | crates/la-ipc/src/hub.rs:397-413 | Replay returns the shortest prefix of the wanted chunks that uses up the budget; it stays within the budget if and only if some prefix meets it exactly or everything fits. |
| HubDelivery.ReplayInEveryRun | crates/la-ipc/src/hub.rs:389-413 | The same in every run of a new hub, over the published chunks themselves, from the number asked for or the oldest still held. |
| HubDelivery.ReplayMayExceedBudget | crates/la-ipc/src/hub.rs:389-392 | After one publish to a new hub a replay of any smaller budget returns the whole payload: the documented bound is not kept. |
| HubDelivery.DropsAreNotCoalesced | crates/la-ipc/src/hub.rs:442-495 | Two payloads in a row over a subscriber's budget get it two gap notices, one a chunk, where the header promises one. |
| HubCharges.AccountsExactIffNoMisdirectedAck | crates/la-ipc/src/hub.rs:434-439 | From any exact state, every charge equals its sent but unacknowledged bytes and stays within its cap through a whole run if and only if no acknowledgement from a replaced receiver meets a positive charge (clamping is in `HubCharges.ExactIffNoStaleAcks`). |
| HubCharges.StepChargedIff | crates/la-ipc/src/hub.rs:434-439 | One step from an exact state leaves all charges exact if and only if it is not such an acknowledgement. |
| HubCharges.AckChargedIff | crates/la-ipc/src/hub.rs:434-439 | An acknowledgement from the newest channel never underflows; a misdirected one always spoils the charge. |
| HubCharges.AccountsOfEveryRun | crates/la-ipc/src/hub.rs:434-439 | In every run of a new hub: all charges are exact and within their caps and no subtraction is ever cut off at zero, if and only if no acknowledgement of some bytes meets a registered id from a channel other than its newest. |
| HubCharges.ExactIffNoStaleAcks | crates/la-ipc/src/hub.rs:434-439 | The same from any exact state of the invariant. |
| HubCharges.StaleAckIff | crates/la-ipc/src/hub.rs:434-439 | One step from an exact state spoils a charge or is cut off at zero if and only if it is such an acknowledgement. |
| HubCharges.ClampHappens | crates/la-ipc/src/hub.rs:434-439 | Five ordinary steps of a new hub, for any one-byte payload, whose last acknowledgement is cut off at zero while every charge stays exact. |
| HubCharges.MisdirectedAckHappens | crates/la-ipc/src/hub.rs:538-550 | Five ordinary steps of a new hub, for any one-byte payload, after which a subscriber's account is wrong: a receive still acknowledging when its subscription is resumed. |
| OutputHubs.OutputHub.constructor | crates/la-ipc/src/hub.rs:180-195 | A new hub is the specification's new hub. |
| OutputHubs.OutputHub.PushToSub | crates/la-ipc/src/hub.rs:454-495 | The queue-or-gap decision refines the specification (pinned by `HubRoom.DeliveredIffRoom`), with no other subscriber changed. |
| OutputHubs.OutputHub.FanOut | crates/la-ipc/src/hub.rs:233-240 | Every subscriber, in whatever order the map gives them, gets the specified delivery. |
| OutputHubs.OutputHub.PushRing | crates/la-ipc/src/hub.rs:222-232 | The push and eviction loop computes the fitting suffix; the byte counter stays exact, so its subtraction is never cut off. |
| OutputHubs.OutputHub.AppendAndFanOut | crates/la-ipc/src/hub.rs:219-242 | One chunk is ringed, then fanned out, then counted. |
| OutputHubs.OutputHub.PublishPayload | crates/la-ipc/src/hub.rs:214-244 | Publish refines the specification and returns the first and last number used. |
| OutputHubs.OutputHub.Subscribe | crates/la-ipc/src/hub.rs:253-281 | Subscribe refines the specification. |
| OutputHubs.OutputHub.Resume | crates/la-ipc/src/hub.rs:294-331 | Resume refines the specification, and answers none exactly when the id is gone. |
| OutputHubs.OutputHub.ParkSub | crates/la-ipc/src/hub.rs:342-355 | Park refines the specification. |
| OutputHubs.OutputHub.EvictIfStillParked | crates/la-ipc/src/hub.rs:360-375 | Evict refines the specification and reports whether it removed. |
| OutputHubs.OutputHub.CloseHub | crates/la-ipc/src/hub.rs:380-387 | Close refines the specification. |
| OutputHubs.OutputHub.ReplayRing | crates/la-ipc/src/hub.rs:397-413 | The replay loop computes the specified replay. |
| OutputHubs.OutputHub.RingRange | crates/la-ipc/src/hub.rs:418-424 | None exactly when the ring is empty; otherwise from the first number not evicted to the last published, and the ring holds exactly the numbers in between. |
| OutputHubs.OutputHub.TakeEvent | crates/la-ipc/src/hub.rs:538-539 | Taking an event: got, waiting while the sender lives, or ended. |
| OutputHubs.OutputHub.AckEvent | crates/la-ipc/src/hub.rs:546-548 | The acknowledgement refines the specification, as its own step. |
| OutputHubs.OutputHub.Recv | crates/la-ipc/src/hub.rs:538-550 | Take and acknowledge with nothing in between. |
| Base64.DecodeAfterEncode | crates/la-proto/src/notifications.rs:81-91 | Decoding undoes encoding for every payload (section 4 of RFC 4648). |
| Base64.EncodeAfterDecode | crates/la-proto/src/notifications.rs:89-91 | Every accepted text is the encoding of what it decodes to: the encoding is a bijection. |
| Base64.EncodeIsStandard | crates/la-proto/src/notifications.rs:81-87 | Character by character the encoding of any input is that of section 4 of RFC 4648: the next six bits of the octets, first octet most significant, looked up in the alphabet, and padding where no bit is left. |
| Base64.SymbolsAre | crates/la-proto/src/notifications.rs:81-87 | The symbols are the 64 of the standard's Table 1, in both directions. |
| Base64.DecodedLenOfEncode | crates/la-ipc/src/hub.rs:83-96 | The length arithmetic is exact on every text the hub makes. |
| Base64.DecodedLenExact | crates/la-ipc/src/hub.rs:83-96 | The length arithmetic is exact on every text the decoder accepts. |
| Base64.DecodedLenUnderflowsIff | crates/la-ipc/src/hub.rs:83-96 | On any text the length arithmetic goes below zero if and only if the text is not empty and its last 3n + 1 characters, of its n whole groups of four, are all padding; the decoder accepts no such text. |
| Chunking.ChunkSessionOutput | crates/la-proto/src/chunking.rs:21-35 | The chunking loop computes the specified pieces, an empty payload one empty piece. |
| Chunking.ChunksCarryPayload | crates/la-proto/src/chunking.rs:21-35 | Decoding and joining the pieces gives the payload back; numbers are consecutive; every piece but the last is exactly 64 KiB and the last no longer. |
| Chunking.ChunkIsSlice | crates/la-proto/src/chunking.rs:21-35 | Piece k carries exactly slice k, and its charged length is that slice's length. |
| Payloads.WriteAcceptedIffItFits | crates/la-proto/src/methods.rs:412-443 | A write is accepted if and only if its encoding fits the message limit less 16 KiB, and then decodes to the same bytes. |
| Payloads.SameTextIffSameBytes | crates/la-proto/src/notifications.rs:81-91 | Two notifications are equal exactly when their bytes are. |
| Framing.Decode | crates/la-ipc/src/codec.rs:43-71 | One decode step: a frame, a wait, or an oversize error with the buffer untouched. |
| Framing.Encode | crates/la-ipc/src/codec.rs:77-89 | Appends the frame, or refuses and appends nothing. |
| Framing.SlicingIndependent | crates/la-ipc/src/codec.rs:43-71 | Feeding a stream in any pieces returns the same frames and the same error as feeding it whole. |
| Framing.DrainSplits | crates/la-ipc/src/codec.rs:43-71 | The same for one cut. |
| Framing.ReadsExactlyWhatWasWritten | crates/la-ipc/src/codec.rs:43-89 | The reader returns exactly these payloads and keeps this leftover if and only if the stream was their encodings followed by it and it holds no whole frame. |
| Framing.EncodeAfterDrain | crates/la-ipc/src/codec.rs:43-89 | Re-encoding what was read and appending what is left gives the stream back, for every stream. |
| Framing.OversizeStopsAfterFrames | crates/la-ipc/src/codec.rs:49-61 | At an oversize header exactly the preceding payloads have been returned. |
| Framing.BigEndianRoundTrip | crates/la-ipc/src/codec.rs:43-89 | The length prefix reads back. |
| Framing.BigEndianWrites | crates/la-ipc/src/codec.rs:80-87 | The length prefix is the one text of four octets that writes the length as a numeral with the most significant octet first. |
| Framing.PrefixReads | crates/la-ipc/src/codec.rs:48-53 | A length prefix is read as that numeral. |
| CivilTime.CivilSteps | crates/la-adapter/src/ext_time.rs:36-45 | Adding a day to the conversion gives the calendar's next day, and every date produced exists. |
| CivilTime.YearOfEraBounds | crates/la-adapter/src/ext_time.rs:38-41 | The year found is the one whose days contain the day sought; the end of an era included. |
| CivilTime.MonthTable | crates/la-adapter/src/ext_time.rs:42-44 | The month arithmetic is the calendar's table of March-based months. |
| Rfc3339.CountOfCivil | crates/la-adapter/src/ext_time.rs:36-45 | The conversion gives a valid date whose Gregorian day count from 1970-01-01 is the day given. |
| Rfc3339.CivilOfCount | crates/la-adapter/src/ext_time.rs:36-45 | Every date from 1970 on is the conversion of its own day count. |
| Rfc3339.StampCountsBack | crates/la-adapter/src/ext_time.rs:28-47 | Every second before the year 2^31 has a valid date and time of day that count back to it. |
| Rfc3339.CountedStampReturns | crates/la-adapter/src/ext_time.rs:28-47 | Every valid stamp whose year fits is the conversion of the seconds it counts. |
| Rfc3339.YearFitsIff | crates/la-adapter/src/ext_time.rs:45-46 | Narrowing the year to 32 bits is harmless exactly for the seconds before the year 2^31. |
| Rfc3339.TextReadsBack | crates/la-adapter/src/ext_time.rs:9-17 | Up to year 9999 the text has the shape of section 5.6 of RFC 3339 and its six numbers read back as the stamp. |
| Rfc3339.TimestampsSortAsTimes | crates/la-adapter/src/ext_time.rs:9-17 | Printed timestamps up to year 9999 sort as the seconds they print; a time before the epoch has none. |
| Rfc3339.SortsExactlyBeforeYear10000 | crates/la-adapter/src/ext_time.rs:9-17 | All timestamps below a bound sort as times if and only if the bound is at most the start of year 10000. |
| CronSecurity.StreamInjective | crates/la-daemon/src/cron_security.rs:77-107 | The bytes hashed are equal if and only if all eight fields are, budgets by their bits. |
| CronSecurity.FingerprintSeesChangeIff | crates/la-daemon/src/cron_security.rs:77-136 | Equal hash input and an empty list of changed fields agree, except exactly when nothing changed and the budget is a NaN, or nothing changed but the signs of zeros, in the budget or among the spawn arguments' numbers. |
| CronSecurity.ChangedEmptyIff | crates/la-daemon/src/cron_security.rs:109-136 | The list of changed fields is empty exactly when six fields are equal, the spawn arguments are equal as JSON values and the budgets compare equal as numbers. |
| CronSecurity.ChangedSensitiveFields | crates/la-daemon/src/cron_security.rs:109-136 | The eight comparisons compute the fields that differ, in the fixed order. |
| CronSecurity.ChangedFieldsDiffer | crates/la-daemon/src/cron_security.rs:109-136 | A field is listed as changed if and only if it differs. |
| JsonZeros.SameButForMinus | crates/la-daemon/src/cron_security.rs:117-119 | Spawn arguments that compare equal agree in everything but minus signs. |
| JsonZeros.PlainTextsCompareExactly | crates/la-daemon/src/cron_security.rs:117-119 | Spawn arguments without a negative zero compare equal only when they are. |
| JsonZeros.ZeroSignsCompareEqual | crates/la-daemon/src/cron_security.rs:117-119 | A sign before a zero where a JSON value stands makes no difference. |
| CronSecurity.UpsertNeverEnables | crates/la-daemon/src/cron_security.rs:146-162 | An upsert leaves a cron enabled exactly when it was and no sensitive field differs, asks for reconfirmation exactly when it turned one off, lists exactly the fields that differ, and is refused exactly for too long a prompt. |
| Confirmations.ConfirmationTokens.Issue | crates/la-daemon/src/cron_security.rs:230-251 | A new token replaces whatever had its name, after expired ones are dropped. |
| Confirmations.ConfirmationTokens.RequireOrConfirm | crates/la-daemon/src/cron_security.rs:264-301 | Without a token one is issued; with one it is spent whatever the answer, and confirms only for its cron, in time, and for the same fingerprint (the answers are in `CronTokens.AnswerIs`). |
| Confirmations.ConfirmationTokens.InvalidateCron | crates/la-daemon/src/cron_security.rs:303-307 | Exactly this cron's tokens go, and their number is returned. |
| Confirmations.ConfirmationTokens.PruneExpired | crates/la-daemon/src/cron_security.rs:313-315 | Exactly the expired tokens go. |
| Confirmations.TokenIsSpent | crates/la-daemon/src/cron_security.rs:282-297 | A presented token confirms nothing ever again. |
| CronTokens.PendingIsStanding | crates/la-daemon/src/cron_security.rs:225-315 | In every run the pending tokens are exactly those that stand, told from the steps: issued, and not since presented, issued anew, cleared out after five minutes, invalidated by a disable, a delete or a completed sensitive edit, or dropped with a stale one; each for the cron, content and deadline of its issue. |
| CronTokens.StandsIff | crates/la-daemon/src/cron_security.rs:225-315 | A token stands if and only if a step issued it and no later one issued it anew or ended it. |
| CronTokens.AnswerIs | crates/la-daemon/src/cron_security.rs:264-301 | What a presented token is answered in any run, by its issue: invalid when it does not stand, expired from five minutes after its issue on, of another cron, stale when the content has another fingerprint than at the issue, and otherwise confirmed. |
| CronTokens.TokenEnablesIff | crates/la-daemon/src/cron_control.rs:282-331 | Presenting a token enables the cron, in storage and heap, if and only if it stands, was issued for that cron and its present content less than five minutes before, and the spec parses; otherwise neither changes. |
| CronTokens.ConfirmationSucceeds | crates/la-daemon/src/cron_control.rs:240-333 | The converse of `CronEnable.ConfirmationHasIssue`: an issue followed in time, on a clock that does not go back, by its presentation, with nothing in between that voids it, the lock free, the same fingerprint and a spec that parses, leaves the cron enabled and in the heap. |
| CronTokens.OthersSurvive | crates/la-daemon/src/cron_security.rs:230-315 | Issuing, clearing out, invalidating and presenting leave every unexpired token of another cron as it was. |
| CronEnable.EveryEnableIsConfirmed | crates/la-daemon/src/cron_control.rs:162-333 | In any run, a step that turns a cron on redeems a token, issued earlier for that cron and unspoiled since; or it is an upsert that undid an auto-pause it had not seen. |
| CronEnable.ConfirmationHasIssue | crates/la-daemon/src/cron_control.rs:282-331 | Each redemption has its issue: same cron, less than the lifetime ago, same fingerprint, with no disable, delete, sensitive edit while enabled, stale rejection, use or re-issue in between. |
| CronEnable.IssuesAreDistinct | crates/la-daemon/src/cron_security.rs:264-301 | No two enables share an issue. |
| CronEnable.EnablesIff | crates/la-daemon/src/cron_control.rs:162-333 | A step turns a cron on exactly when it confirms, or writes back an enabled flag over a paused row. |
| CronEnable.UpsertEnablesIffPauseLost | crates/la-daemon/src/cron_control.rs:176-195 | An upsert turns a cron on if and only if it wrote back an enabled flag that an auto-pause had cleared after it was read. |
| CronEnable.AutoPauseCanBeLost | crates/la-daemon/src/cron_control.rs:176-195 | A run in which a failing run's auto-pause is undone by an upsert without any confirmation. |
| CronPauses.DisablesIff | crates/la-daemon/src/cron_control.rs:162-344 | A step turns a cron off exactly when it is its disable or its delete, an upsert that writes it without having read it enabled and unchanged, or an auto-pause at its threshold. |
| CronPauses.AutoPausesIff | crates/la-storage/src/repos.rs:413-428 | In any run an auto-pause turns an enabled cron off if and only if its failures since the last success, counted on from what was last stored, have reached its threshold. |
| CronPauses.FailuresAre | crates/la-storage/src/repos.rs:354-400 | The stored failure count and threshold are those told from the run. |
| CronContent.EnabledContentIsApproved | crates/la-daemon/src/cron_control.rs:162-333 | In every reachable state an enabled cron's eight sensitive fields are those last confirmed for it or those it was enabled with at start: bit for bit, but for the signs of zeros in the spawn arguments. |
| CronContent.EnabledContentIff | crates/la-daemon/src/cron_control.rs:162-333 | Its fingerprint stream is that of the approved content if and only if the spawn arguments' bytes are. |
| CronContent.ZeroSignSlipsThrough | crates/la-daemon/src/cron_control.rs:183-195 | An upsert that puts a sign on a zero spawn argument leaves the cron enabled, unconfirmed, with another fingerprint stream. |
| CronContent.UnchangedIff | crates/la-daemon/src/cron_control.rs:183-202 | Against a stored row, an edit passes for no change if and only if storing it leaves the row bit for bit as it was, but for the signs of zeros in the spawn arguments, and its budget is not a NaN. |
| CronContent.RunKeepsStored | crates/la-storage/migrations/0004_crons_runs.sql:21-21 | No stored budget is ever a NaN or a negative zero: the column keeps none. |
| CronContent.ConfirmedContentIsShown | crates/la-daemon/src/cron_control.rs:282-292 | What is redeemed is what the token was issued for, or the two are an exhibited collision of the hash. |
| CronContent.StorageAndHeapAgree | crates/la-daemon/src/cron_control.rs:162-344 | Between handlers every enabled cron is scheduled with its own expression, zone and mode, and if every stored spec parsed at the start, disabled ones too, every one still does; without auto-pauses the heap is exactly the enabled rows. |
| CronContent.StrayIffPaused | crates/la-daemon/src/cron_control.rs:162-344 | A disabled cron is in the heap if and only if an auto-pause turned it off and no handler has settled it since (a row an upsert has written and not yet reconciled aside). |
| CronContent.RunKeepsHeap | crates/la-daemon/src/cron_control.rs:194-219 | Through every run, mid-upsert too, every heap entry agrees with its row and every enabled row that parses has one. |
| CronContent.RunKeepsAllParse | crates/la-daemon/src/cron_control.rs:162-175 | Once every stored spec parses, disabled rows included, it stays so through every run. |
| CronContent.RunKeepsParse | crates/la-daemon/src/cron_control.rs:304-320 | Once every enabled row parses, it stays so, whatever the disabled ones hold. |
| CronContent.AutoPauseLeavesEntry | crates/la-daemon/src/scheduler.rs:1168-1193 | One failing run and its auto-pause leave a disabled cron in the heap. |
| CronContent.ModesAre | crates/la-daemon/src/cron_control.rs:347-353 | A stored catch-up mode is skip or replay by that very name, and otherwise coalesce. |
| CronControls.CronControl.Upsert | crates/la-daemon/src/cron_control.rs:162-234 | Upsert refines the three phases of the model and returns the row as stored. |
| CronControls.CronControl.SetEnabled | crates/la-daemon/src/cron_control.rs:240-333 | Set-enabled refines the model; a refusal changes neither storage nor heap, an enable is in both. |
| CronControls.CronControl.Delete | crates/la-daemon/src/cron_control.rs:338-344 | Delete refines the model and reports whether a row was there. |
| CronControls.UpsertIsThreeSteps | crates/la-daemon/src/cron_control.rs:162-234 | An undisturbed upsert is its three steps in a row, and returns the lock. |
| CronControls.UpsertLeaves | crates/la-daemon/src/cron_control.rs:162-234 | What an undisturbed upsert leaves, in full: nothing on a refusal; otherwise the row as asked for and kept by the database, enabled and in the heap just when it was enabled and nothing sensitive changed, and its tokens dropped just when it stopped being enabled. |
| CronControls.SeedCrons | crates/la-daemon/src/scheduler.rs:449-479 | The seeding loop installs exactly the enabled crons that parse: the heap every run starts from. |
| ExecutorModel.Counters.BumpRunningForCron | crates/la-daemon/src/scheduler.rs:976-980 | The entry is created or raised, saturating. |
| ExecutorModel.Counters.DecrementForCron | crates/la-daemon/src/scheduler.rs:982-990 | The entry is lowered, and removed at zero. |
| ExecutorLimits.GlobalLimitHolds | crates/la-daemon/src/scheduler.rs:655-742 | In every interleaving the global counter stays within a limit that is set, and whoever was told there is room still has it. |
| ExecutorLimits.CronLimitHolds | crates/la-daemon/src/scheduler.rs:655-742 | In every interleaving a cron's unfinished run rows never exceed the largest limit its decisions used, or those left at start. |
| ExecutorLimits.AdmitsIff | crates/la-scheduler/src/quota/mod.rs:359-428 | A run is admitted if and only if none of the seven checks objects. |
| ExecutorLimits.RefusalIsFirstObjection | crates/la-scheduler/src/quota/mod.rs:359-428 | A refusal names the first check in order of priority that objects, with its numbers. |
| ExecutorRows.RowIsUnfinishedIff | crates/la-daemon/src/scheduler.rs:1139-1164 | In every run a task's row is unfinished if and only if it was inserted and no spawn failure or run end of it has been persisted since. |
| ExecutorRows.LiveRowsAre | crates/la-daemon/src/scheduler.rs:661-720 | What the gate counts for a cron is the rows stranded by an earlier daemon and exactly those. |
| ExecutorRows.RowsAtRestIff | crates/la-daemon/src/scheduler.rs:1139-1164 | With nothing under way only the stranded rows count, if and only if no run of the cron had its insert or terminal write fail half-way or was cut off with its row inserted. |
| ExecutorRows.RowsGivenBack | crates/la-daemon/src/scheduler.rs:1139-1164 | When all writes work and nothing is cut off, every run gives its row back. |
| ExecutorRows.AdmittedAtRest | crates/la-daemon/src/scheduler.rs:661-742 | So with nothing under way and nothing stranded a cron is never refused for runs that are over. |
| ExecutorRows.TasksAreArrivals | crates/la-daemon/src/scheduler.rs:655-660 | The tasks are the fires and manual runs that arrived, each with its own cron. |
| ExecutorLimits.LedgersBalance | crates/la-daemon/src/scheduler.rs:804-947 | At every point of every run each task has taken and freed each counter as often as its place says. |
| ExecutorLimits.ReleasesExactlyOnceIff | crates/la-daemon/src/scheduler.rs:804-947 | A task that is over took each counter at most once and gave back all it took, on every failure and success path, if and only if it was not cut off with its connection while holding something; a scheduled one always did. |
| ExecutorProgress.AbortLeaks | crates/la-daemon/src/runtime.rs:448-459 | A manual run cut off between its two bumps leaves the global counter at one for ever. |
| ExecutorProgress.NeverStuck | crates/la-daemon/src/scheduler.rs:655-742 | In every reachable state with an unfinished task some task can move by itself and lowers the work left. |
| ExecutorProgress.WorkIsBounded | crates/la-daemon/src/scheduler.rs:655-947 | Every fire and manual run costs at most twelve effective steps. |
| ExecutorRuns.SlotsConserved | crates/la-daemon/src/scheduler.rs:961-990 | Global minus the sum of the per-cron counters is the number of tasks between their two bumps less the number between their two frees; no entry is zero. |
| ExecutorRuns.CountersAreHolders | crates/la-daemon/src/scheduler.rs:804-841 | The global counter is the number of tasks that hold it, and each cron's entry the number holding that. |
| ExecutorRuns.TotalIsSlotHolders | crates/la-daemon/src/scheduler.rs:961-990 | The sum of all entries is the number of tasks that hold any. |
| ExecutorRuns.QuiescentIsEmptyIff | crates/la-daemon/src/scheduler.rs:1215-1216 | With no task under way, the global counter is zero and the map empty if and only if no manual run was cut off while it held something. |
| ExecutorRuns.OnlyManualRunsAbort | crates/la-daemon/src/runtime.rs:448-459 | Only manual runs, which live on their client's connection, are ever cut off. |
| ExecutorRuns.NothingSaturates | crates/la-daemon/src/scheduler.rs:961-990 | No decrement meets a zero and no bump the top of the range. |
| ExecutorRuns.LockHolds | crates/la-daemon/src/scheduler.rs:655-660 | The admission section holds one task at a time. |
| Executors.Executor.AdmitAndSpawn | crates/la-daemon/src/scheduler.rs:804-947 | Every failure path restores both counters exactly and leaves the row as far as it got; a spawned run keeps one slot and one live row. |
| Executors.Executor.ProcessFire | crates/la-daemon/src/scheduler.rs:655-742 | One undisturbed fire is exactly the model's steps for it; a refusal carries the gate's reason and is audited unless a deferral; otherwise the limits hold after it. |
| Executors.FireIs | crates/la-daemon/src/scheduler.rs:655-742 | What the steps of one fire come to. |
| Executors.BumpThenFree | crates/la-daemon/src/scheduler.rs:966-990 | Taking and freeing a slot leaves no trace. |
| Shutdown.ShutdownLosesNoFire | crates/la-daemon/src/scheduler.rs:338-374 | When the controller is the only notifier, every fire sent has been processed, in order, once the executor has exited, and nothing was lost. |
| Shutdown.FiresAreHandled | crates/la-daemon/src/scheduler.rs:554-600 | In any state, stopped or not, the executor left to itself handles every fire sent to it, in order, within as many steps as the measure. |
| Shutdown.SendsIff | crates/la-daemon/src/scheduler.rs:554-593 | A fire is sent if and only if the heap loop lives and fewer than 256 are buffered or nobody receives any more. |
| Shutdown.ShutdownReturnsLast | crates/la-daemon/src/scheduler.rs:338-374 | In every run, with any stop requests: when the shutdown has returned, the heap loop is gone, the executor has exited, the channel is empty and every fire sent was handled in order but for those lost; without stop requests none was lost. |
| Shutdown.ShutdownCompletes | crates/la-daemon/src/scheduler.rs:338-374 | From every reachable state the teardown and 1027 executor steps, or more, bring the shutdown to return. |
| Shutdown.JoinReturns | crates/la-daemon/src/scheduler.rs:354-360 | Once the heap loop is gone and the notify sent, the join returns after as many executor steps as the measure. |
| Shutdown.ExecutorExits | crates/la-daemon/src/scheduler.rs:554-593 | Once the channel is closed the executor exits within as many of its own steps as the measure, notified or not. |
| Shutdown.MeasureBound | crates/la-daemon/src/scheduler.rs:554-593 | From any reachable state that is at most 1027 steps. |
| Shutdown.RequestStopIsSafeIff | crates/la-daemon/src/scheduler.rs:376-384 | A stop request loses no later fire if and only if the executor was not parked or the heap loop was already gone. |
| Shutdown.SafeIff | crates/la-daemon/src/scheduler.rs:338-384 | With any number of stop requests at any time: none lost and none to be lost without a further request, if and only if none was lost yet and either the heap loop is gone or no request ever met a parked executor. |
| Shutdown.StoppedWhileAliveIsUnsafe | crates/la-daemon/src/scheduler.rs:376-384 | A stopped executor under a live heap loop loses a fire in some continuation. |
| Shutdown.Receiver.DrainRemainingFires | crates/la-daemon/src/scheduler.rs:595-600 | The drain loop handles every buffered fire in order. |
| Shutdown.DrainHandlesAll | crates/la-daemon/src/scheduler.rs:595-600 | So do the model's executor steps, two for each fire. |
| EntryTables.PeekIsEarliest | crates/la-scheduler/src/heap.rs:239-252 | On a coherent table the lazily cleaned heap answers as a scan of all entries would. |
| EntryTables.AlwaysSafeIffNoRevivals | crates/la-scheduler/src/heap.rs:191-297 | For every run: after each of its steps the next fire is, and without further insertions stays, the earliest scheduled one, if and only if no insertion found a node of the deleted cron of a later version than the first, or of the first version and ahead of the new time. |
| EntryTables.InsertionIsSafeIff | crates/la-scheduler/src/heap.rs:205-225 | The same for one insertion, on the answers alone: every rewrite, deletion, peek and fire that follows leaves the next fire the earliest, if and only if there is no such node. |
| EntryTables.StepIsCoherentIff | crates/la-scheduler/src/heap.rs:191-297 | Every operation keeps the table coherent, except an insertion, which does if and only if it finds no such node. |
| EntryTables.RunPeeksEarliest | crates/la-scheduler/src/heap.rs:191-264 | In every run without such an insertion, whatever else it inserts, the next fire is the earliest scheduled one. |
| EntryTables.RunFollowsPlan | crates/la-scheduler/src/heap.rs:191-297 | The versioned table refines a plain map from crons to fire times: without a revival each step stores the time it is given, removes the cron, or rewrites the one due first once its time has come, and a peek answers the one due first or nothing. |
| EntryTables.LeftoverIsUnsafe | crates/la-scheduler/src/heap.rs:227-253 | Any node that breaks the rule can be made to answer: some insertion-free continuation ends with a wrong next fire. |
| EntryTables.ReinsertedCronFiresEarly | crates/la-scheduler/src/heap.rs:205-232 | A cron deleted and inserted again behind an earlier one is due at its old time: versions start again at one. |
| EntryTables.EntryTable.UpsertEntry | crates/la-scheduler/src/heap.rs:191-227 | Upsert refines the specification and returns the version stored. |
| EntryTables.EntryTable.DeleteEntry | crates/la-scheduler/src/heap.rs:230-232 | Delete refines the specification. |
| EntryTables.EntryTable.Refresh | crates/la-scheduler/src/heap.rs:271-297 | Refresh refines the specification. |
| EntryTables.EntryTable.Peek | crates/la-scheduler/src/heap.rs:242-253 | The loop drops exactly the stale front and answers the next live node. |
| EntryTables.EntryTable.Pop | crates/la-scheduler/src/heap.rs:257-265 | The loop removes exactly the stale front and the live node. |
| Prometheus.LabelIsOnePass | crates/la-observ/src/lib.rs:570-575 | The three sequential replaces equal a one-pass escape. |
| Prometheus.HelpIsOnePass | crates/la-observ/src/lib.rs:566-568 | The two sequential replaces equal a one-pass escape. |
| Prometheus.EscapesAreInjective | crates/la-observ/src/lib.rs:566-575 | Different texts and label values escape differently. |
| Prometheus.EscapesAre | crates/la-observ/src/lib.rs:566-575 | The escapes go character by character: a backslash is doubled, a newline becomes a backslash and n, in label values a quote gets a backslash, and everything else stands for itself. |
| Prometheus.LinesAre | crates/la-observ/src/lib.rs:419-457 | The lines of the text format, comments by their keyword. |
| Prometheus.NoRawNewline | crates/la-observ/src/lib.rs:566-575 | No escaped text contains a raw newline. |
| Prometheus.ReadBack | crates/la-observ/src/lib.rs:566-575 | Reading an escaped text up to the first unescaped terminator gives the text and exactly what follows: no quote or newline ends it early. |
| Prometheus.ItemsReadBack | crates/la-observ/src/lib.rs:419-457 | A printed list of help, type and sample lines reads back as exactly that list. |
| PrometheusPrinter.ScrapeRecoversStore | crates/la-observ/src/lib.rs:419-457 | For any label values and help texts, and valid names, a scrape recovers every description, name, label list and value in order. |
| PrometheusPrinter.ScrapeSaysStore | crates/la-observ/src/lib.rs:419-457 | What the scrape reads is the store: each description's text with its unit in brackets and its kind; each counter and gauge under its name, labels and value; each histogram's count in the +Inf bucket, its sum as _sum and its count as _count. |
| PrometheusPrinter.RenderPrometheus | crates/la-observ/src/lib.rs:419-457 | The printing loops produce exactly the store's items in order. |
| PrometheusPrinter.RenderSample | crates/la-observ/src/lib.rs:513-532 | One sample line. |
| PrometheusPrinter.RenderSampleWithExtraLabel | crates/la-observ/src/lib.rs:534-564 | One sample line whose last label is the extra one. |
| PrometheusPrinter.RenderHelp | crates/la-observ/src/lib.rs:423-432 | The unit can be appended after the escaped text. |
| PrometheusPrinter.PrintAlikeIff | crates/la-observ/src/lib.rs:422-438 | Two descriptions print the same lines if and only if name, kind, and text and unit run together agree. |
| PrometheusPrinter.UnitIsAmbiguous | crates/la-observ/src/lib.rs:427-432 | So a unit is not told from a text that ends like one. |
| Pump.OutputPump.Run | crates/la-core/src/manager.rs:829-994 | The loop and teardown refine the specification for any events and exit status. |
| Pump.OutputPump.OnChunk | crates/la-core/src/manager.rs:846-889 | A chunk stamps the time, promotes if starting or waiting, and only then reaches the hub. |
| Pump.OutputPump.OnPromote | crates/la-core/src/manager.rs:890-912 | Promotes a starting session, once. |
| Pump.OutputPump.OnTick | crates/la-core/src/manager.rs:913-938 | Waits only from running, after the idle time since output, on a terminal (exactly then: `Pump.AnnouncesExactly`). |
| Pump.EveryTraceIsLegal | crates/la-core/src/manager.rs:829-994 | Every run announces Starting, then running and waiting by turns, then one final Exited; and hands the hub exactly the chunks read, in order. |
| Pump.ReactsExactly | crates/la-core/src/manager.rs:844-940 | Every event of every run, in full and told from the events: which states it enters, what it hands the hub, what it stores. |
| Pump.AnnouncesExactly | crates/la-core/src/manager.rs:846-938 | A tick announces Waiting if and only if the session has a terminal, announced Running last, and its last chunk lies at least the idle time back; Running is announced exactly by a chunk from Starting or Waiting and by a promotion from Starting. |
| Pump.LegalIffHappens | crates/la-core/src/manager.rs:829-994 | For terminal sessions the legal traces are exactly those of runs whose clock does not go back and whose chunks are not empty. |
| Pump.NullSinkTrace | crates/la-core/src/manager.rs:921-926 | A session without a terminal never announces waiting. |
| Pump.RunIsConsistent | crates/la-core/src/manager.rs:844-940 | Between events the cached state is the last one announced. |
| Pump.CacheNeverDrifts | crates/la-core/src/manager.rs:844-940 | At every moment the cached state is the last announced or the one being announced. |
| Pump.EffectsInOrder | crates/la-core/src/manager.rs:846-985 | Bytes reach the hub only while the announced state is running, a chunk is stored right after the hub had it, and a state is announced only right after it was cached and persisted. |
| Pump.TeardownOrder | crates/la-core/src/manager.rs:954-993 | Exit is cached, persisted and announced, then the registry entry goes, then the hub closes, each once and last. |
| SingleWriter.HolderMoves | crates/la-core/src/manager.rs:519-549 | The holder moves only from none to a claimant and from a holder to none by its own detach. |
| SingleWriter.DetachBetweenWriters | crates/la-core/src/manager.rs:519-597 | Between accepted writes of different subscribers lies a detach of the first that released the lock. |
| SingleWriter.TenuresDoNotInterleave | crates/la-core/src/manager.rs:519-597 | Each subscriber's accepted writes lie in one tenure. |
| SingleWriter.NeverRegains | crates/la-core/src/manager.rs:519-549 | A subscription that lost the lock never holds it again. |
| SingleWriter.WriteIsHeldIff | crates/la-core/src/manager.rs:583-598 | The terminal write of an accepted check is made by the holder if and only if it did not release the lock in between. |
| SingleWriter.WriteCanTrail | crates/la-core/src/manager.rs:583-598 | An accepted write can reach the terminal after the next holder's. |
| SingleWriter.SessionRuntime.Attach | crates/la-core/src/manager.rs:506-538 | An undisturbed attach is the model's subscribe and claim; the input is granted exactly when asked for and free. |
| SingleWriter.SessionRuntime.Release | crates/la-core/src/manager.rs:542-549 | Releasing is the model's detach, and changes the holder exactly when it held. |
| SingleWriter.SessionRuntime.Write | crates/la-core/src/manager.rs:583-598 | An undisturbed write is the model's check and write; a refusal names the true holder, and changes nothing. |

## Left out

- Sequence and subscription numbers are unbounded; wrap-around of a 64-bit counter is not modelled.
- Executors.Executor.AdmitAndSpawn: asks for counters below 2^32 - 1 and no empty entry, which `ExecutorRuns.CountersAreHolders` provides in every reachable state of fewer than 2^32 tasks.
- A receive given up between taking an event and acknowledging it and then started again on the same handle, so that a later event is acknowledged and that one never. The daemon's one receiver (crates/la-daemon/src/dispatcher.rs:360) awaits each receive to its end; a task that is cut off for good is covered, as one whose acknowledgements do not come.
- A control handler cut off with its connection at shutdown, between its row and the heap; the heap and the tokens end with the daemon moments later, and the rows are what the next start seeds from.
- Base64 decoding has one error here; the library's error variants and message texts are not modelled.
- The hash behind the fingerprint is any function from bytes to 64-bit numbers; that it is hard to find collisions is not claimed.
- Spawn arguments are their canonical JSON bytes, compared without the signs of zeros as the values are; numbers that parsing does not bring back as printed, and rows whose stored JSON does not parse, are not modelled.
- Cron expressions are parsed by an arbitrary function; next fire times, catch-up and backoff delays are parameters.
- SQLite, worktrees, adapters, PTYs and the transport are answers passed in; a storage error in the control channel's own writes or in the seeding pass is not modelled, nor a scheduler loop that has ended while they run; an error in the run rows is. Of how SQLite stores a value the model has only what a REAL column does to a budget.
- The confirmation summary is carried, not built: its preview, next fire and budget text are parameters.
- Random tokens are parameters and may repeat; a repeat replaces the earlier token, and the enable property holds all the same.
- Cost and load values are reals; number formatting in the metrics text is an opaque token without a newline.
- Sorting a metric key's labels, and the recorder's counter, gauge and histogram updates: the store is given as its ordered entries.
- The hub's classes use one object; sharing it between tasks is the interleaving of steps in `HubRuns`, not aliasing.
- `CronControls.CronControl` and `SingleWriter.SessionRuntime` run one call at a time; interleavings with auto-pause and between attach's and write's halves are in `CronControlModel` and `SingleWriter`.
- The binary heap of the entry table is its contents in order; entry fields other than next fire and version are dropped, and cron ids are their rank in string order.
- The executor's throttle flag, error window, watermark and health pulse; the dispatcher, configuration, adapters' parsers and health checks.
- Archiving, orphan reaping, signals and resizing of sessions.
