# Verified model of the CM5 voice daemon's protocol machines

The daemon in `ai-service/` talks to its device over one lossy serial link. Almost every
component is a small protocol machine that must stay correct whatever the link, the helper
processes and the other tasks do at each suspension point. This project models those
machines in Dafny and proves what every run of them keeps. `dafny verify dfyconfig.toml`
checks all of it.

An `await` is the end of one atomic step. What happens there is a parameter: the reply, a
refusal, a timeout, a lost link, a cancellation, and any events that arrive meanwhile. A
theorem about runs quantifies over all of it. The code's form is kept: objects whose
methods update their fields are classes, loops are loops, and each is proved against a
specification or an invariant.

| Files | Component |
|---|---|
| `Power`, `PowerSafety`, `PowerRuns`, `PowerAnswers`, `PowerStory`, `PowerController`, `PowerObject`, `PowerPolicy` | two-phase power requests: the steps, the invariant, the claims over runs, what the device is told, the object; the automatic profile |
| `Cobs`, `Crc16`, `Frame`, `Transport` | the wire: stuffing, checksum, frames, the byte-level reader, the bounded event queue |
| `Crc32`, `LiveCodec`, `LiveStream`, `LiveSender`, `LiveInbox` | the live PCM lane: payload codecs, one stream, the inbox |
| `PushWire`, `TextSplit`, `LlmPush` | streaming an answer to the device |
| `Greedy`, `Chunking`, `NativeReply` | text splitting and the reply window |
| `LinkWorld`, `Session`, `Presence`, `Dictation` | commands, logins and replays; heartbeats; dictation |
| `Fan`, `Jobs` | fan requests; the wake registry and job queue |
| `WordScores`, `SttInput`, `Fetch`, `Wav` | transcript scores, PCM coalescing, recording reassembly, WAV files |
| `Bytes` | byte strings, fields, concatenation |

What the proofs found in the code, as opposed to what its comments say:

- The frame checksum does not catch all damage to two neighbouring bytes. Changing the last
  payload byte by 0x89 and the checksum byte stored right after it by 0xA1 goes unnoticed, and
  nothing else does (`Frame.AdjacentDamage`). Every frame with a payload has such a twin
  (`Frame.DamagedTwin`).
- A profile request that is cancelled while its helper runs has already cancelled the pending
  idle timer, so after the last lease the active profile stays applied until the request is
  run again (`PowerPolicy.CancelledRequestPinsActive`). `PowerPolicy.KeptExactlyWhenHarmless`
  says exactly which helper answers keep the policy.
- A profile request whose link is lost while its final report is on the way has been applied
  and is settled, but the device is never told more than ACCEPTED
  (`PowerStory.ProfileVerdictLost`, `PowerAnswers.UntoldForever`). That is the only way to be
  settled without a verdict (`PowerAnswers.UntoldExactly`).
- `split_for_push` raises only for its first character. With a limit under four bytes a wide
  character further on becomes a part over the limit (`TextSplit.SplitForPush` says exactly
  when, `TextSplit.WideCharSlipsThrough` shows one).
- A fan service call that raises an exception the worker does not expect leaves its request
  unfinished and its cache slot taken until the link is reset (`Fan.Serve` says exactly when,
  `Fan.CrashStrands` shows a run for every request).
- With META frames of different sizes, and only then, a good transfer fails in another order
  of arrival (`Fetch.ArrivalOrderIrrelevant`; `Fetch.LastMetaDecides` shows one).
- Two overlapping `next_stream` calls can both be given one stream
  (`LiveInbox.OverlappingCallsShare`). What a call gets was given out before exactly when that
  happened while it was waiting (`LiveInbox.SharedExactly`); calls one after the other never
  share (`LiveInbox.DeliveredAtMostOnce`).
- The streamed reply loses the gap between two words when a forced cut falls right behind a
  newline or tab (`NativeReply.NewlineLost`). `NativeReply.StreamReply` says for every answer
  whether its words survive.

## Model

| member | source | states |
|---|---|---|
| `PowerRuns.AtMostOnce` | ai-service/hw1_ai_service/power.py:646-805 | In every interleaving of events, duplicates, refused or lost ACKs, link loss, cancellation, retry timers and replay, the destructive helper is started at most once for a record |
| `PowerRuns.OnlyWhenConfirmed` | ai-service/hw1_ai_service/power.py:714-805 | Every helper start has, earlier in the same history, an OK'd ACCEPTED and after it an OK'd COMMITTED of that record, a positive support check for suspend and sleep, and happens only for a destructive action of an enabled controller |
| `PowerRuns.OneOriginal` | ai-service/hw1_ai_service/power.py:493-517 | The queue never holds two original items of one record, and an original item always finds its record still queued |
| `PowerRuns.OneLivePerId` | ai-service/hw1_ai_service/power.py:487-509 | Two unfinished records never carry the same request ID |
| `PowerRuns.NeverEvictedWhileOwing` | ai-service/hw1_ai_service/power.py:519-531 | A record leaves the cache only when it is terminal and owes no ACK |
| `PowerRuns.UncertainIsFinal` | ai-service/hw1_ai_service/power.py:782-805 | Once a helper was started and its outcome is unknown, no single step moves the record on or starts a helper for the same ID |
| `PowerRuns.UncertainForever` | ai-service/hw1_ai_service/power.py:667-698 | That latch holds over every continuation of the run |
| `PowerRuns.RepairIsNewestFirst` | ai-service/hw1_ai_service/power.py:572-587 | A reconnect appends exactly the lost originals and then the owed callbacks, newest first, as far as the queue has room |
| `PowerRuns.NothingStranded` | ai-service/hw1_ai_service/power.py:563-587 | With room in the queue every unfinished record is, after a reconnect, in hand, queued, latched as uncertain, or about to have its COMMITTED repeated |
| `PowerRuns.Invariant` | ai-service/hw1_ai_service/power.py:376-961 | The protocol invariant holds in every state of every run |
| `PowerSafety.NextKeeps` | ai-service/hw1_ai_service/power.py:453-961 | Each atomic step, for any environment answer, keeps the protocol invariant |
| `PowerStory.WholeStory` | ai-service/hw1_ai_service/power.py:646-805 | From an idle controller with room, a new request of any action, the link answering OK, is told exactly this and no more: FAILED alone when it is not allowed or not supported; ACCEPTED and then, for status and profile, APPLIED after a success of the helper or FAILED; for the others COMMITTED, one start of the helper, and APPLIED exactly if it succeeds; and it ends settled with nothing owed, or committed and started when the helper failed |
| `PowerStory.DuplicateStory` | ai-service/hw1_ai_service/power.py:488-500 | A duplicate of a settled or an uncertain request has its cached ACK sent again, once, and starts nothing |
| `PowerStory.CommittedDuplicate` | ai-service/hw1_ai_service/power.py:660-668 | A duplicate of a committed request that was not started repeats COMMITTED and, once that is OK'd, starts the helper |
| `PowerStory.MalformedStory` | ai-service/hw1_ai_service/power.py:460-475 | A malformed event with a usable ID is told FAILED |
| `PowerStory.RefusedVerdictIsRetried` | ai-service/hw1_ai_service/power.py:905-961 | A verdict that was not OK'd is planned again within the budget and queued when its timer runs out |
| `PowerStory.ReadyUntilHeard` | ai-service/hw1_ai_service/power.py:478-603 | Readiness stays pending until its report is OK'd or the device asks for a reboot, halt, suspend or sleep |
| `PowerAnswers.AppliedMeansDone` | ai-service/hw1_ai_service/power.py:760-805 | In every run an OK'd APPLIED has a success of the helper before it, and for a destructive request its start before that |
| `PowerAnswers.OneVerdict` | ai-service/hw1_ai_service/power.py:714-805 | In every run no record is told both APPLIED and FAILED, FAILED and a start of the helper exclude each other, and a record with a verdict is settled |
| `PowerAnswers.SuccessIsApplied` | ai-service/hw1_ai_service/power.py:785-801 | In every run a destructive request whose helper has succeeded is settled with APPLIED |
| `PowerAnswers.UntoldExactly` | ai-service/hw1_ai_service/power.py:807-834 | A request comes to be settled without a verdict exactly when the link is lost, or the worker cancelled, while the report of its applied profile is on the way |
| `PowerAnswers.UntoldForever` | ai-service/hw1_ai_service/power.py:700-713 | And then no later step of any run tells it one |
| `PowerStory.ProfileVerdictLost` | ai-service/hw1_ai_service/power.py:807-834 | A run of every new profile request that ends like that, with nothing owed |
| `PowerObject.Operate` | ai-service/hw1_ai_service/power.py:453-961 | A controller object driven through any steps ends in the state of that run, so the claims over runs hold of it; its helper started at most once for any record |
| `PowerObject.Do` | ai-service/hw1_ai_service/power.py:453-961 | Each entry point of the object, whatever the environment answers, takes the protocol step and keeps the invariant |
| `PowerControl.PowerController.ClaimReady` | ai-service/hw1_ai_service/power.py:542-547 | The boot report is claimed before the await, with a fresh retry budget |
| `PowerControl.PowerController.ReadyAnswered` | ai-service/hw1_ai_service/power.py:548-556 | After the await the claim is delivered or retried, and only then are record callbacks replayed |
| `PowerControl.PowerController.Close` | ai-service/hw1_ai_service/power.py:1065-1080 | No retry is planned any more; timers of cached records are cancelled, those of forgotten ones are not |
| `PowerControl.PowerController.SubmitEvent` | ai-service/hw1_ai_service/power.py:453-509 | One event: the new object state is the protocol step, for malformed, duplicate, conflicting, new and refused requests |
| `PowerControl.PowerController.TrimRecords` | ai-service/hw1_ai_service/power.py:519-531 | Evicts oldest first, only delivered terminal records, down to the limit where possible |
| `PowerControl.PowerController.ReplayRecordCallbacks` | ai-service/hw1_ai_service/power.py:572-587 | Both passes over the cache, newest first, as the specification orders them |
| `PowerControl.PowerController.ReplayPendingCallbacks` | ai-service/hw1_ai_service/power.py:563-570 | The readiness report is queued before the callbacks |
| `PowerControl.PowerController.ReadyTimerFires` | ai-service/hw1_ai_service/power.py:611-644 | The readiness retry: queued, replanned or dropped exactly as specified |
| `PowerControl.PowerController.AckTimerFires` | ai-service/hw1_ai_service/power.py:905-940 | The ACK retry: dropped when stale, queued when there is room, else replanned within the budget |
| `PowerControl.PowerController.TakeNext` | ai-service/hw1_ai_service/power.py:646-666 | Taking the next item and the first stretch of work on it |
| `PowerControl.PowerController.ExecuteRecord` | ai-service/hw1_ai_service/power.py:714-735 | The stretch up to the first await: disabled, unsupported, support check, or ACCEPTED |
| `PowerControl.PowerController.RecoverUnaccepted` | ai-service/hw1_ai_service/power.py:700-712 | A request lost before commitment goes back to the queue once |
| `PowerControl.PowerController.AckAnswered` | ai-service/hw1_ai_service/power.py:942-961 | An OK'd ACK is delivered, a refused one keeps its retry |
| `PowerControl.PowerController.AcceptedAnswered` | ai-service/hw1_ai_service/power.py:737-775 | What follows an answered ACCEPTED, action by action |
| `PowerControl.PowerController.ActionAnswered` | ai-service/hw1_ai_service/power.py:741-780 | What follows status, profile and transition reports |
| `PowerControl.PowerController.ReplayAnswered` | ai-service/hw1_ai_service/power.py:951-961 | What follows a repeated ACK, including resuming a committed transition |
| `PowerControl.PowerController.FinalAnswered` | ai-service/hw1_ai_service/power.py:782-805 | What follows the last ACK, with the wake report after a resume |
| `PowerControl.PowerController.ResumeWorker` | ai-service/hw1_ai_service/power.py:646-698 | The worker continues after an await; LinkClosed, cancellation and unexpected exceptions take their own branches |
| `PowerPolicy.PolicyHolds` | ai-service/hw1_ai_service/power.py:993-1063 | In runs whose helper calls succeed (starts may be cancelled), with the lock free, a profile that was asked for is the one applied; on auto a held lease means the active profile is applied, and none means the idle profile or a current timer about to apply it; the lease count is never lost or doubled |
| `PowerPolicy.RequestTakesEffect` | ai-service/hw1_ai_service/power.py:807-826 | In every run a profile request that the helper carries out ends in the mode asked for with the profile it means applied: that profile itself, or on auto the active one while a lease is held and the idle one otherwise |
| `PowerPolicy.ModeIsAskedFor` | ai-service/hw1_ai_service/power.py:807-826 | Nothing but a request that was carried out changes the mode |
| `PowerPolicy.TimersAndLeasesApply` | ai-service/hw1_ai_service/power.py:993-1063 | A timer that runs out undisturbed applies the idle profile, the first lease the active one, and the last one plans or applies the idle one |
| `PowerPolicy.KeptExactlyWhenHarmless` | ai-service/hw1_ai_service/power.py:807-869 | A step keeps the policy if and only if its helper answer is harmless, a condition on the answer and the fields before the step |
| `PowerPolicy.PolicyInvariant` | ai-service/hw1_ai_service/power.py:993-1063 | The invariant over any run all of whose answers are harmless, failures and cancellations included |
| `PowerPolicy.CancelledRequestPinsActive` | ai-service/hw1_ai_service/power.py:807-826 | The policy is false without that condition: a profile request cancelled after the last lease ended leaves the active profile with no timer |
| `PowerPolicy.Act` | ai-service/hw1_ai_service/power.py:807-1080 | Each entry point of the object takes the policy step and, until close, keeps the policy if and only if the helper answer is harmless |
| `PowerPolicy.ProfilePolicy.CloseStarts` | ai-service/hw1_ai_service/power.py:1065-1069 | close invalidates the idle task, even while that task holds the lock |
| `PowerPolicy.ProfilePolicy.ActivityStarted` | ai-service/hw1_ai_service/power.py:993-1003 | The lease is counted and the idle timer invalidated before the helper is awaited |
| `PowerPolicy.ProfilePolicy.ActivityStartedReturns` | ai-service/hw1_ai_service/power.py:1004-1014 | A cancelled start gives its lease back and replans the timer |
| `PowerPolicy.ProfilePolicy.ActivityFinished` | ai-service/hw1_ai_service/power.py:1016-1032 | The last lease schedules or applies the idle profile |
| `PowerPolicy.ProfilePolicy.ApplyRequestedProfile` | ai-service/hw1_ai_service/power.py:807-815 | A request invalidates the timer before its target is applied |
| `PowerPolicy.ProfilePolicy.ApplyRequestedReturns` | ai-service/hw1_ai_service/power.py:815-826 | Success, failure and cancellation of a request |
| `PowerPolicy.ProfilePolicy.IdleTaskWakes` | ai-service/hw1_ai_service/power.py:1040-1050 | A stale idle timer does nothing |
| `PowerPolicy.ProfilePolicy.IdleTaskLocks` | ai-service/hw1_ai_service/power.py:1050-1058 | The timer checks its generation again under the lock |
| `Cobs.CobsDecode` | ai-service/hw1_ai_service/link/protocol.py:533-551 | The decoding loop, error cases included, against the recursive definition |
| `Cobs.DecodeEncode` | ai-service/hw1_ai_service/link/protocol.py:533-551 | Decoding undoes encoding for every byte string, with either treatment of a final full block |
| `Cobs.DecodesIffEncoding` | ai-service/hw1_ai_service/link/protocol.py:533-551 | The decoder accepts exactly the encodings: e decodes to x if and only if e is one of the two encodings of x |
| `Cobs.EncodeHasNoZero` | ai-service/hw1_ai_service/link/protocol.py:533-551 | An encoding contains no delimiter |
| `Cobs.EncodeSize` | ai-service/hw1_ai_service/link/protocol.py:533-551 | An encoding is longer by at least one byte and by at most one in 254, and one more |
| `Crc16.CrcBitwise` | ai-service/hw1_ai_service/link/protocol.py:509-517 | The bit-serial loop computes the CRC of the whole input |
| `Crc16.CrcIsFeed` | ai-service/hw1_ai_service/link/protocol.py:509-530 | The byte-wise register equals the register driven one message bit at a time |
| `Crc16.FeedLinear` | ai-service/hw1_ai_service/link/protocol.py:509-530 | The register is linear over exclusive or |
| `Crc16.BurstDetected` | ai-service/hw1_ai_service/link/protocol.py:509-530 | Every change confined to 16 consecutive bits changes the CRC |
| `Crc16.TwoBytesDetected` | ai-service/hw1_ai_service/link/protocol.py:509-530 | Every change inside two neighbouring bytes changes the CRC |
| `Crc16.Constants` | ai-service/hw1_ai_service/link/protocol.py:509-517 | The two registers are 0x1021 and 0xFFFF |
| `Frame.ParseBody` | ai-service/hw1_ai_service/link/protocol.py:554-570 | Every sendable frame parses back to itself |
| `Frame.BodyOfParse` | ai-service/hw1_ai_service/link/protocol.py:554-570 | Whatever parses is the body of the frame it parses to |
| `Frame.SingleByteDamage` | ai-service/hw1_ai_service/link/protocol.py:554-570 | A body that differs from a valid one in exactly one byte is rejected |
| `Frame.AdjacentDamage` | ai-service/hw1_ai_service/link/protocol.py:554-570 | Damage confined to two neighbouring bytes is accepted if and only if it changes the last payload byte by 0x89 and the low checksum byte after it by 0xA1 |
| `Frame.DamagedTwin` | ai-service/hw1_ai_service/link/protocol.py:554-570 | Every valid frame body with a payload has such a damaged twin that is accepted |
| `Frame.WireBound` | ai-service/hw1_ai_service/link/transport.py:53-55 | A stuffed frame with the largest payload fits the reader's frame buffer (1036 of 1100 bytes) |
| `Transport.Reader.ReaderMain` | ai-service/hw1_ai_service/link/transport.py:194-259 | The read loop over any list of reads, idle reads included, emits exactly the events of the byte-level machine |
| `Transport.Reader.ReadByte` | ai-service/hw1_ai_service/link/transport.py:216-259 | One byte: delimiter, overflow and line rules |
| `Transport.Reader.DispatchLine` | ai-service/hw1_ai_service/link/transport.py:285-300 | Empty lines vanish, unprintable ones are garbage |
| `Transport.Reader.Finish` | ai-service/hw1_ai_service/link/transport.py:261-283 | A frame that fails COBS or CRC is garbage, an empty one nothing |
| `Transport.StaysBounded` | ai-service/hw1_ai_service/link/transport.py:222-259 | Neither buffer ever exceeds its limit |
| `Transport.RoundTrip` | ai-service/hw1_ai_service/link/transport.py:194-300 | Any printable lines and frames, cut into reads in any way with no idle read inside a frame, come out in order, complete and without garbage |
| `Transport.ChunkingIrrelevant` | ai-service/hw1_ai_service/link/transport.py:194-259 | How the bytes are split into reads does not matter |
| `Transport.ModeFollowsWire` | ai-service/hw1_ai_service/link/transport.py:222-259 | After any prefix of good traffic the reader is inside a frame exactly where the sender is |
| `Transport.Resynchronizes` | ai-service/hw1_ai_service/link/transport.py:194-259 | After any junk, an idle read and a line feed put the reader back in step: everything sent afterwards arrives |
| `Transport.RxQueue.EnqueueInto` | ai-service/hw1_ai_service/link/transport.py:169-180 | The queue takes an event of the current opening, dropping its oldest one only when full, and ignores a stale reader |
| `Transport.UseQueue` | ai-service/hw1_ai_service/link/transport.py:158-180 | Over any mix of puts, gets and reopenings: what the consumer got of the present opening is what its reader put in, in order, each at most once; an event is missing only when a full queue of newer ones came after it; everything later is still held |
| `Transport.RxQueue.Get` | ai-service/hw1_ai_service/link/session.py:252-259 | The consumer takes the oldest event |
| `Transport.RxQueue.Reopen` | ai-service/hw1_ai_service/link/transport.py:103-126 | A reopened port starts with an empty queue of its own |
| `LiveStream.EveryRun` | ai-service/hw1_ai_service/audio/live.py:54-380 | The stream invariant over every interleaving of producer, consumer and clock |
| `LiveStream.DeliveredIsPrefix` | ai-service/hw1_ai_service/audio/live.py:137-305 | In every run the delivered PCM is a contiguous prefix of the accepted PCM, the running CRC is the CRC-32 of all accepted bytes, sequence and offsets have no gap, and the queue respects both bounds |
| `LiveStream.ValidEndIsComplete` | ai-service/hw1_ai_service/audio/live.py:186-305 | A consumer that reaches a valid END holds exactly the declared samples with the declared CRC |
| `LiveStream.FailureAccounts` | ai-service/hw1_ai_service/audio/live.py:341-361 | After an abort or invalidation, delivered plus dropped is accepted plus the samples lost with the last frame, and nothing more is delivered |
| `LiveStream.TerminalIsDurable` | ai-service/hw1_ai_service/audio/live.py:137-305 | A terminal, once set, is never changed by any later operation |
| `LiveStream.NoWaitPastDeadline` | ai-service/hw1_ai_service/audio/live.py:275-380 | The consumer waits exactly while there is no terminal, no chunk and no deadline reached |
| `LiveSender.FaithfulStreamArrives` | ai-service/hw1_ai_service/audio/live.py:137-395 | A faithful sender whose frames find room and whose consumer reads in time, both told from the acts alone, has everything it sent delivered or waiting in order, and behind it, once its END was sent, a valid END with the totals of all of it |
| `LiveSender.EndExactly` | ai-service/hw1_ai_service/audio/live.py:186-280 | An END of an open stream is valid if and only if it is the stream's own, next in sequence, for reason 0, with the sample total and CRC of what was accepted, and reports nothing dropped; any other ends the stream as invalid |
| `LiveSender.AbortExactly` | ai-service/hw1_ai_service/audio/live.py:186-251 | An ABORT is taken as such if and only if it is the stream's own, next in sequence, for a known reason and with those totals; its drops count what the host had queued |
| `LiveSender.PcmExactly` | ai-service/hw1_ai_service/audio/live.py:137-184 | PCM is accepted if and only if it is the stream's own, next in sequence and offset, and there is room |
| `LiveSender.ExpiresExactly` | ai-service/hw1_ai_service/audio/live.py:363-395 | Time ends an open stream exactly at the whole-stream, first-frame and inter-frame limits |
| `LiveStream.LivePcmStream.OfferPcmFrame` | ai-service/hw1_ai_service/audio/live.py:137-184 | Identity, sequence, offset and overflow fences in order |
| `LiveStream.LivePcmStream.OfferTerminalFrame` | ai-service/hw1_ai_service/audio/live.py:186-266 | END and ABORT checks against totals, CRC and sequence |
| `LiveStream.LivePcmStream.TryNextItem` | ai-service/hw1_ai_service/audio/live.py:275-305 | Next chunk, terminal or wait, after the deadlines are applied |
| `LiveStream.LivePcmStream.InvalidateStream` | ai-service/hw1_ai_service/audio/live.py:268-273 | First failure wins and accounts for what is dropped |
| `LiveStream.LivePcmStream.ExpireStream` | ai-service/hw1_ai_service/audio/live.py:363-380 | The two deadlines |
| `LiveInbox.EveryRun` | ai-service/hw1_ai_service/audio/live.py:383-610 | The inbox invariant over all frame sequences: every stream but the active one is terminal, tombstone order and set agree without duplicates within the limit |
| `LiveInbox.TombstoneFences` | ai-service/hw1_ai_service/audio/live.py:438-582 | No frame of a tombstoned exchange opens, reaches or ends a stream |
| `LiveInbox.EndedByPcm` | ai-service/hw1_ai_service/audio/live.py:557-610 | A stream that a PCM frame ends is tombstoned in the same step |
| `LiveInbox.EndedByTerminal` | ai-service/hw1_ai_service/audio/live.py:557-610 | Likewise for END and ABORT frames, the stream's own or foreign |
| `LiveInbox.BeginOpensExactly` | ai-service/hw1_ai_service/audio/live.py:520-556 | A BEGIN opens a stream if and only if it is for this controller, not tombstoned and not the active exchange; the stream it supersedes is retired, invalid if it had not ended, and tombstoned |
| `LiveInbox.FramesAreRouted` | ai-service/hw1_ai_service/audio/live.py:438-600 | A frame of the active exchange reaches its stream, and one of another ends it as foreign |
| `LiveInbox.LossEnds` | ai-service/hw1_ai_service/audio/live.py:440-479 | A lost link or a malformed frame other than a BEGIN ends and tombstones the active stream |
| `LiveInbox.FilteredDelivery` | ai-service/hw1_ai_service/audio/live.py:480-518 | A whole next_stream call returns a stream if and only if, at one of its wake-ups, the active stream is the one it waits for and was not delivered before; it takes that one delivery, and a foreign stream never moves the delivery mark |
| `LiveInbox.SharedExactly` | ai-service/hw1_ai_service/audio/live.py:480-518 | In every run of any number of overlapping calls, a call gets a stream that was given out already if and only if that was since the call started, which is so exactly when the delivered mark stands at the active stream |
| `LiveInbox.SharedByOverlap` | ai-service/hw1_ai_service/audio/live.py:480-518 | Two calls that got one stream overlapped and both were waiting for its exchange |
| `LiveInbox.DeliveredAtMostOnce` | ai-service/hw1_ai_service/audio/live.py:480-518 | In every run whose calls are made one after the other no stream is given out twice and later calls get later streams |
| `LiveInbox.OverlappingCallsShare` | ai-service/hw1_ai_service/audio/live.py:480-518 | A run from an empty inbox in which two calls for one exchange both get its stream |
| `LiveInbox.Operate` | ai-service/hw1_ai_service/audio/live.py:300-518 | An inbox object driven through any frames, link losses and consumer turns ends in the state of that run and keeps the invariant |
| `LiveInbox.ClaimsLiveFramesOnly` | ai-service/hw1_ai_service/audio/live.py:438-471 | Only live frame types are claimed, and an unclaimed frame changes nothing |
| `LiveInbox.LivePcmInbox.OfferRawFrame` | ai-service/hw1_ai_service/audio/live.py:438-471 | The whole demultiplexing of one frame, malformed payloads included |
| `LiveInbox.LivePcmInbox.OfferBeginFrame` | ai-service/hw1_ai_service/audio/live.py:520-555 | A BEGIN supersedes, is late, foreign or a duplicate |
| `LiveInbox.LivePcmInbox.MatchingStream` | ai-service/hw1_ai_service/audio/live.py:557-582 | A foreign frame invalidates the active stream |
| `LiveInbox.LivePcmInbox.TryNextStream` | ai-service/hw1_ai_service/audio/live.py:480-518 | Delivery with and without an exchange filter |
| `LiveInbox.LivePcmInbox.OnLinkClosed` | ai-service/hw1_ai_service/audio/live.py:473-478 | Link loss ends the active stream |
| `LiveInbox.LivePcmInbox.RememberTombstone` | ai-service/hw1_ai_service/audio/live.py:599-610 | Bounded tombstones, oldest forgotten first |
| `LiveCodec.BeginRoundTrip` | ai-service/hw1_ai_service/link/protocol.py:351-443 | Parsing a packed valid BEGIN gives it back |
| `LiveCodec.BeginCanonical` | ai-service/hw1_ai_service/link/protocol.py:416-443 | Re-packing an accepted BEGIN gives the same bytes |
| `LiveCodec.PcmRoundTrip` | ai-service/hw1_ai_service/link/protocol.py:446-470 | Parsing a packed valid PCM frame gives it back |
| `LiveCodec.PcmCanonical` | ai-service/hw1_ai_service/link/protocol.py:446-470 | Re-packing an accepted PCM frame gives the same bytes |
| `LiveCodec.TerminalRoundTrip` | ai-service/hw1_ai_service/link/protocol.py:473-491 | Parsing a packed valid terminal gives it back |
| `LiveCodec.TerminalCanonical` | ai-service/hw1_ai_service/link/protocol.py:473-491 | Re-packing an accepted terminal gives the same bytes |
| `LiveCodec.BeginLayout` | ai-service/hw1_ai_service/link/protocol.py:351-443 | The 28 bytes of a BEGIN, field by field |
| `LiveCodec.PcmLayout` | ai-service/hw1_ai_service/link/protocol.py:352 | The 24 header bytes of a PCM payload, field by field, and the samples behind them |
| `LiveCodec.TerminalLayout` | ai-service/hw1_ai_service/link/protocol.py:353 | The 30 bytes of a terminal, field by field |
| `Checksum32.Streaming` | ai-service/hw1_ai_service/link/protocol.py:504-506 | Checksumming in pieces gives the checksum of the whole |
| `Checksum32.WordsCompare` | ai-service/hw1_ai_service/link/protocol.py:504-506 | Comparing register words is comparing the 32-bit numbers |
| `Checksum32.ReflectedValue` | ai-service/hw1_ai_service/link/protocol.py:504-506 | The constant is 0xEDB88320 (section 8 of RFC 1952) |
| `LlmPush.DoAsk` | ai-service/hw1_ai_service/cm5_llm.py:759-840 | Over any loss of lines and replies, refusal, link loss, cancellation or stream failure, the device text is a prefix of the normalised model output; a closing ok means it is all of it; sequence numbers run 0, 1, 2 without a gap and each line is written at most twice, unchanged; a link that never loses two writes in a row delivers everything; on a calm live link it is told stopped, error or ok exactly as the first event that is not a plain delta says, and on any link every other ending has a cancelled, unanswered or unmade write for a cause |
| `LlmPush.Stream` | ai-service/hw1_ai_service/cm5_llm.py:785-820 | How the turn stands when the delta loop ends by exhaustion, cancellation, abort or exception; on a calm live link the events alone decide which, and on any link stopped needs a cancelled delta, a killed task or a cancelled write |
| `LlmPush.Bridge.Send` | ai-service/hw1_ai_service/cm5_llm.py:897-1011 | At most two writes, one if the line is not idempotent; the line takes effect at most once; acceptance means it took effect |
| `LlmPush.Bridge.PushText` | ai-service/hw1_ai_service/cm5_llm.py:850-861 | Parts go out in order under consecutive numbers until one is not accepted |
| `LlmPush.Bridge.PushChunk` | ai-service/hw1_ai_service/cm5_llm.py:866-873 | The number advances exactly on acceptance, the turn aborts exactly on refusal |
| `LlmPush.Bridge.Keepalive` | ai-service/hw1_ai_service/cm5_llm.py:863-864 | An empty chunk takes a number and adds no text |
| `LlmPush.Bridge.Flush` | ai-service/hw1_ai_service/cm5_llm.py:795-802 | The cut loop terminates and pushes a prefix of what has accumulated |
| `LlmPush.ChunkArrives` | ai-service/hw1_ai_service/cm5_llm.py:66-69 | A chunk of at most 200 bytes survives the device's line trim and decode buffer unchanged |
| `LlmPush.TakeTwice` | ai-service/hw1_ai_service/cm5_llm.py:933-936 | An already applied line changes nothing when it arrives again |
| `PushWire.UnescapeEscape` | ai-service/hw1_ai_service/cm5_llm.py:120-144 | Decoding an encoding followed by anything gives the text and then the rest decoded |
| `PushWire.UnescapeLoop` | ai-service/hw1_ai_service/cm5_llm.py:125-144 | The decoding loop, with unknown escapes and a trailing backslash, against the recursive definition |
| `PushWire.EscapedHasNoBlank` | ai-service/hw1_ai_service/cm5_llm.py:104-122 | Encoded normalised text contains no whitespace at all |
| `PushWire.TrimSpares` | ai-service/hw1_ai_service/cm5_llm.py:147-152 | Trimming the encoded line loses nothing |
| `PushWire.FlushPoint` | ai-service/hw1_ai_service/cm5_llm.py:350-371 | A cut is strictly after the last one, at the last due sentence end, else before the last blank of the first 140 characters; without a cut fewer than 140 characters wait and no sentence end is due |
| `TextSplit.SplitForPush` | ai-service/hw1_ai_service/cm5_llm.py:374-398 | Parts concatenate back exactly; it raises if and only if the first character alone is over the limit; all parts fit if and only if every character does; and then no cut into fitting parts is shorter |
| `TextSplit.WideCharSlipsThrough` | ai-service/hw1_ai_service/cm5_llm.py:374-398 | With a limit of two bytes a euro sign behind a letter is accepted and becomes a part over the limit |
| `Greedy.Fewest` | ai-service/hw1_ai_service/cm5_llm.py:386-395 | Taking the longest fitting piece each time needs no more pieces than any other cut, for any fitting test that sub-pieces inherit |
| `Chunking.ChunkText` | ai-service/hw1_ai_service/deliver.py:30-60 | It raises if and only if the limit is under four; chunks are non-empty and fit; the non-space characters survive in order; and when every word fits the chunks join to the normalised text and are as few as possible |
| `Chunking.HardCut` | ai-service/hw1_ai_service/deliver.py:48-53 | The longest start of an over-long word that fits, always at least one character |
| `Chunking.HardSplit` | ai-service/hw1_ai_service/deliver.py:46-57 | Cutting an over-long word keeps every character |
| `Chunking.WordsOfJoin` | ai-service/hw1_ai_service/deliver.py:34-39 | Splitting the collapsed text gives the same words, so collapsing is idempotent |
| `NativeReply.StreamReply` | ai-service/hw1_ai_service/pipeline.py:784-833 | Whether the reply is streamed and what the window then shows are functions of the deltas; the non-space characters come out in order within the part size, with the placeholder for an empty answer; and the words are those of the answer if and only if no word is too long for a part and no chunk begins with a word right behind a gap, which a text without whitespace other than blanks never makes |
| `NativeReply.SendPart` | ai-service/hw1_ai_service/pipeline.py:991-1008 | One delta adds exactly its words on one line, over-long ones in pieces, behind a blank if it began with whitespace |
| `NativeReply.SendWhole` | ai-service/hw1_ai_service/pipeline.py:1010-1036 | The unstreamed reply on one line with the placeholder for a blank answer; its words are those of the answer if and only if none is too long for a part |
| `NativeReply.SameWordsExactly` | ai-service/hw1_ai_service/pipeline.py:991-1008 | For any chunks: the window shows the words of the answer if and only if no chunk begins with a word right behind a gap and no word is too long for a part |
| `NativeReply.NewlineLost` | ai-service/hw1_ai_service/pipeline.py:784-833 | The streamed reply to 139 letters with a newline, and then a letter, shows the two words as one |
| `UartSession.Session.Command` | ai-service/hw1_ai_service/link/session.py:190-229 | A line is written at most once, twice or four times depending on the two replay flags, every write directly behind a passed guard, nothing but logins between; a reply is returned only while the guard still passes, cancellation only when it does not, and a timeout or a missing login only after the replay the flags allow; undisturbed, the line is written once and its answer is returned |
| `UartSession.Session.CommandOnce` | ai-service/hw1_ai_service/link/session.py:392-418 | At most one replay after an authentication loss, none for epoch-bound lines |
| `UartSession.Session.Login` | ai-service/hw1_ai_service/link/session.py:425-466 | Only login lines, each behind a passed guard; another one follows only a lockout or one of the first two silences, so three silences end it, as does a rejection, success or cancellation |
| `LinkWorld.HappenAllEvolves` | ai-service/hw1_ai_service/link/session.py:359-372 | Whatever events arrive, generations only grow, the mode changes only with its generation and no acknowledgement is invented |
| `LinkWorld.SubmitExactly` | ai-service/hw1_ai_service/dictation.py:146-180 | A new dictation ID is queued and current at once, a known one changes nothing |
| `LinkWorld.CancelExactly` | ai-service/hw1_ai_service/dictation.py:406-416 | A cancelled ID is not current, not queued and known; no other request is affected |
| `LinkWorld.CancelledStays` | ai-service/hw1_ai_service/dictation.py:406-416 | Only a new request for its ID makes a cancelled request's ID current again |
| `LinkWorld.OutlivedStays` | ai-service/hw1_ai_service/dictation.py:211-265 | No request of an earlier login, reset or of closed dictation is current again |
| `LinkWorld.ModesWanted` | ai-service/hw1_ai_service/cm5_presence.py:154-195 | The mode asked for is the one wanted under a new generation; a reset or the first hint of a reboot goes back to STARTING with nothing acknowledged |
| `PresenceActor.Run` | ai-service/hw1_ai_service/cm5_presence.py:197-319 | In every run each heartbeat on the wire carries the mode and generation wanted at that moment, is STARTING while a reboot is suspected, and has a non-zero 32-bit number; an acknowledged generation was carried by a written heartbeat and never exceeds the desired one |
| `PresenceActor.Cm5Presence.Turn` | ai-service/hw1_ai_service/cm5_presence.py:205-245 | One turn of the actor keeps that, with the stale snapshot after a deadline; undisturbed, a new mode or a deadline puts one heartbeat for it on the wire under the next number, and an OK makes it the acknowledged one; before the deadline nothing is said |
| `PresenceActor.Cm5Presence.Beat` | ai-service/hw1_ai_service/cm5_presence.py:228-306 | Only an accepted beat counts as sent and acknowledges its generation; three damaged ones in a row end the actor |
| `PresenceActor.NextSequence` | ai-service/hw1_ai_service/cm5_presence.py:321-325 | The next number follows the last, and 1 follows the greatest |
| `DictationActor.Run` | ai-service/hw1_ai_service/dictation.py:196-209 | In every run at most one terminal line per request, each written while the request is current and, by the history, neither cancelled nor outlived by a login, a reset or the end of dictation; and a first request that nothing disturbs gets its transcript |
| `DictationActor.DictationController.Handle` | ai-service/hw1_ai_service/dictation.py:309-370 | A request that stays current is answered by exactly one terminal line, with its transcript exactly when fetch and recognition both delivered; an overtaken one by none or one |
| `DictationActor.DictationController.SendTerminal` | ai-service/hw1_ai_service/dictation.py:382-398 | At most one write, this line, never replayed; one unless the request lost its turn or the link broke |
| `Fan.Serve` | ai-service/hw1_ai_service/fan.py:326-692 | In every run the service is asked only after an OK'd ACCEPTED and never again once the request is finished, whether or not its outcome got through; a report says what the service answered; an OK'd APPLIED follows an OK'd report and means an answer for the mode that was asked for; a cached finished request that owes nothing had its outcome OK'd; the cache keeps its bound with distinct IDs; and a cached request stays unfinished for good if and only if its service call raised an exception the worker does not expect, which any request can meet; and when nothing goes wrong a request is told exactly ACCEPTED, one service call, and its report and APPLIED, or FAILED for a refusal or another mode |
| `Fan.CrashStrands` | ai-service/hw1_ai_service/fan.py:435-453 | For every request there is a run, of one ACCEPTED and one crashing service call, that ends with the request cached, unfinished, unqueued, without a timer and never answered |
| `Fan.FanController.Submit` | ai-service/hw1_ai_service/fan.py:341-385 | Records, queue and cache after a malformed, a duplicate and a new event, exactly: the rejected, moved and repeated, or admitted request, and no change without room |
| `Fan.FanController.Known` | ai-service/hw1_ai_service/fan.py:360-372 | A duplicate moves to the end of the cache and is queued once; a finished request owes its report and outcome again, and nothing else changes |
| `Fan.FanController.Fresh` | ai-service/hw1_ai_service/fan.py:374-385 | A new request is admitted if and only if the queue has room and the cache has, or a delivered record can go |
| `Fan.FanController.QueueRecord` | ai-service/hw1_ai_service/fan.py:395-401 | A record is queued at most once |
| `Fan.FanController.ScheduleRetry` | ai-service/hw1_ai_service/fan.py:591-637 | A retry is planned within the budget; an exhausted record owes nothing more and leaves the cache |
| `Fan.FanController.TimerFires` | ai-service/hw1_ai_service/fan.py:615-632 | A due retry is queued exactly when something is owed and there is room |
| `Fan.FanController.Begin` | ai-service/hw1_ai_service/fan.py:456-463 | Either nothing was written or OK'd, or an OK'd ACCEPTED comes first and the service calls and callbacks after it |
| `Fan.FanController.Execute` | ai-service/hw1_ai_service/fan.py:465-495 | At most two service calls for a mode and one for a status, the first before anything else; none when fan control is disabled; a call that crashes leaves the record in the middle of it |
| `Fan.FanController.Outcome` | ai-service/hw1_ai_service/fan.py:478-515 | Applied for a good answer to the mode asked for, failed for any other answer, unstarted again after cancellation, stuck after a crash |
| `Fan.FanController.FinishFailed` | ai-service/hw1_ai_service/fan.py:517-525 | The record ends FAILED whatever becomes of the write |
| `Fan.FanController.Flush` | ai-service/hw1_ai_service/fan.py:545-559 | What goes out is a start of the pending report followed by the outcome, and no service call; unless interrupted, an outcome still owed has a retry planned; the verdict is not changed by sending it |
| `Fan.FanController.Replay` | ai-service/hw1_ai_service/fan.py:527-543 | A repeated item starts over before ACCEPTED, asks the service after it, and once finished sends only what is owed, without a service call |
| `Fan.FanController.LinkReset` | ai-service/hw1_ai_service/fan.py:561-589 | A new epoch empties queue and cache and stops every retry; records keep their verdicts |
| `Fan.FanController.Reject` | ai-service/hw1_ai_service/fan.py:343-358 | A malformed event with a usable ID is answered FAILED by a record of its own, outside the cache |
| `Jobs.Serve` | ai-service/hw1_ai_service/jobs.py:111-202 | In every run each request for a job gets one, unless the queue is empty; a job handed out is not cancelled and nothing left comes before it, wakes before manual jobs, and jobs of one class come out in arrival order; every manual job is entered, and every wake unless its exchange was dismissed or finished; every job entered was handed out, is waiting, or is a cancelled wake; at most one registered exchange is uncancelled, none of those is tombstoned, tombstones stay bounded and distinct |
| `Jobs.BuryKeeps` | ai-service/hw1_ai_service/jobs.py:198-202 | A new tombstone displaces only the oldest of a full cache |
| `Jobs.ManualTrigger.NextJob` | ai-service/hw1_ai_service/jobs.py:135-142 | The job handed out is not cancelled and comes before everything left, wakes first; only cancelled wakes are skipped |
| `Jobs.ManualTrigger.SubmitEvenai` | ai-service/hw1_ai_service/jobs.py:150-174 | A tombstoned wake is ignored, a duplicate changes nothing, a new one is the only live exchange afterwards |
| `Jobs.ManualTrigger.CancelEvenai` | ai-service/hw1_ai_service/jobs.py:176-183 | Cancellation sticks, before or after the wake |
| `Jobs.ManualTrigger.EvenaiDone` | ai-service/hw1_ai_service/jobs.py:193-196 | Completion unregisters and tombstones |
| `WordScores.WordRecall` | ai-service/hw1_ai_service/stt/replay.py:71-85 | The rolling-row loop returns the greatest length of any common subsequence over the expected length |
| `WordScores.FullRecall` | ai-service/hw1_ai_service/stt/replay.py:71-85 | A recall of one means exactly that every expected word was recovered in order |
| `WordScores.LcsIsGreatest` | ai-service/hw1_ai_service/stt/replay.py:78-85 | The recurrence is reached by a common subsequence and no longer one exists |
| `WordScores.WordErrors` | ai-service/tools/link/live_pcm_shadow_probe.py:90-103 | The rolling-row loop returns the least cost of any keep, substitute, delete and insert script |
| `WordScores.DistIsLeast` | ai-service/tools/link/live_pcm_shadow_probe.py:90-103 | The recurrence is reached by a script and no cheaper one exists |
| `WordScores.Symmetric` | ai-service/tools/link/live_pcm_shadow_probe.py:90-103 | Swapping reference and hypothesis does not change the error count |
| `WordScores.Triangle` | ai-service/tools/link/live_pcm_shadow_probe.py:90-103 | Errors obey the triangle inequality |
| `WordScores.ZeroMeansEqual` | ai-service/tools/link/live_pcm_shadow_probe.py:90-103 | No errors means equal word lists |
| `SttInput.Serve` | ai-service/hw1_ai_service/stt/live.py:432-481 | In every run the published chunks join to a prefix of the offered bytes, all 4096 bytes long but for one flushed by an end that no abort came before, within the queue bound; the input is spoiled if and only if the calls are not smooth (an odd, late or overflowing offer, an end without room, a foreign rate or an abort); smooth calls with an end publish exactly what was offered |
| `SttInput.LiveMoonshineWorker.OfferPcm` | ai-service/hw1_ai_service/stt/live.py:432-451 | An offer is refused if and only if it is odd, late, after a failure, or its full chunks do not fit the queue; only a refusal spoils the input; otherwise every full chunk moves to the queue and the rest stays staged |
| `SttInput.LiveMoonshineWorker.EndInput` | ai-service/hw1_ai_service/stt/live.py:464-472 | The final flush completes the input and spoils it only when something is staged and the queue is full; a second end changes nothing |
| `SttInput.LiveMoonshineWorker.Publish` | ai-service/hw1_ai_service/stt/live.py:453-462 | A full queue ends acceptance |
| `Fetch.Reassemble` | ai-service/hw1_ai_service/audio/fetch.py:461-494 | It succeeds if and only if META frames are well formed, the audio numbers are exactly 1 to N once each, and size and CRC are as declared; the result is the payloads in number order |
| `Fetch.ArrivalOrderIrrelevant` | ai-service/hw1_ai_service/audio/fetch.py:461-484 | Every reordering of a good transfer is the same good transfer if and only if its META frames declare one size |
| `Fetch.LastMetaDecides` | ai-service/hw1_ai_service/audio/fetch.py:461-494 | Two META frames, of five bytes and of none, that reassemble in one order and are an error in the other |
| `Fetch.SameResult` | ai-service/hw1_ai_service/audio/fetch.py:461-494 | When the META frames agree, reassembly gives the same recording, or an error, in every order of arrival |
| `Fetch.Pigeonhole` | ai-service/hw1_ai_service/audio/fetch.py:478-484 | N numbers that include 1 to N are 1 to N |
| `Wav.Parse` | ai-service/hw1_ai_service/audio/wav.py:23-56 | The chunk walk terminates on every input and returns the last format and data chunk, or an error |
| `Wav.FileReads` | ai-service/hw1_ai_service/audio/wav.py:23-56 | Any list of word-aligned chunks behind a RIFF header is read back chunk for chunk |
| `Wav.WalkExactly` | ai-service/hw1_ai_service/audio/wav.py:23-56 | The walk yields these chunks if and only if the file is these chunks one after the other, odd ones padded except at the very end, with at most seven bytes left over |
| `Wav.BuildReadsBack` | ai-service/hw1_ai_service/audio/wav.py:59-85 | A built file reads back as the same PCM at the same rate, canonical at 16 kHz |

## Left out

- Serial port, sockets, subprocesses, HTTP and clocks: they appear only as replies, events and times passed in.
- Event parsing, helper command lines, request-ID syntax, event-text grammars, reason strings and log messages: requests arrive parsed, and no claim depends on the texts.
- Regular expressions and the printable and whitespace character classes: predicates passed as parameters. Text is a list of characters; lone surrogates are not distinguished.
- Record and exchange objects of the power, fan and job modules: handles into a table of all objects ever made, so that identity and forgotten objects stay visible without heap references.
- PowerRuns.AtMostOnce: at most once per record, and per ID while that record is cached; a delivered terminal record may be evicted and its ID used again.
- PowerControl.PowerController.ExecuteRecord: waiting for the policy lock and for the helper are one suspension in the worker.
- PowerObject.Operate: the answer to a boot report may come at any time, also with no report under way, which only adds runs.
- PowerPolicy.PolicyHolds: runs up to close; close itself is modelled but its last state is only what its helper answers.
- Transport.RoundTrip: the rate limit on garbage events and the choice between sink and queue for frames are not part of the reader; both drop or route whole events.
- LiveStream.ValidEndIsComplete: one consumer at a time; condition-variable wake-ups are the polling of the same step.
- LlmPush.DoAsk: starts where the model's stream opens; the early refusals (already cancelled, model not up) send one closing line and nothing else. A reply is assumed to belong to the line before it, and line damage to reach the device as another verb; damage inside a payload, which the text channel cannot detect, is not modelled. The firmware's session number and generation epoch appear as one device object per answer.
- NativeReply.StreamReply: dismissal and pacing are not modelled.
- TextSplit.SplitForPush: the ValueError is the absence of a result.
- UartSession.Session.Command: reply collection is one suspension with its outcome; the client-side line-length error, which is raised before any write, is not modelled.
- PresenceActor.Run: lease numbers and texts of the reply are one accept-or-reject outcome; the busy reference count is covered as arbitrary mode changes by other tasks.
- DictationActor.Run: fetching and recognition are suspensions with an outcome; the capability handshake is a flag per request.
- Fan.Serve: status fields are one opaque value; the exception branch for a request whose service call never started has no source of such exceptions.
- Jobs.Serve: tasks, timestamps and the control socket around the registry.
- SttInput.Serve: inference takes chunks from the queue; the claim is about what is published, since the worker's end-of-input test is not atomic.
- Fetch.Reassemble: frames arrive parsed (see `Frame.BodyOfParse`); the command retry around it and the base64 file reader are left out.
- Model discovery, catalog publication, transcript finalisation, ask clipping, warm-worker management, diagnostics, corpus capture and the small single-purpose actors: easy members beside the above.
