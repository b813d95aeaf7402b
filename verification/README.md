# Aida agent: takeover, transcript and settings

This project models three parts of the Aida call-screening agent and proves what they promise.

1. **The call takeover.** A server may ask the agent to announce a transfer, report that the
   transfer failed, or say that a human has answered. Meanwhile the call is starting up, the SIP
   leg may change, the SDK session may close and the job may be shut down. `Control.dfy`,
   `Admission.dfy` and `Worker.dfy` give each stretch of code between two awaits as one step;
   `WorkerInvariant.dfy` proves one invariant of every step in any interleaving, and
   `WorkerRuns.dfy`, `WorkerTiming.dfy` and `WorkerProgress.dfy` prove what follows for whole
   runs. `CommandEffects.dfy` and `RoomEffects.dfy` write out what each command, room event and
   startup step does, on the job's own variables. `ControlHandler.dfy`, `SipAdmission.dfy` and `Job.dfy` are the source's objects, updated
   in place; `Jobs.Job.Step` is proved to take exactly the step of the model, so every claim about
   runs is a claim about these objects.
2. **The transcript.** `Transcripts.dfy` and `Publisher.dfy` are the handset feed: segments,
   revisions, truncation and the one sender that fails closed. `History.dfy`, `HistoryTurns.dfy`
   and `Observer.dfy` are the session history, caller turns, and an observer that merges a
   snapshot with live rows. `Paging.dfy` and `Transfer.dfy` are the paged transfer and the sizes of
   what travels, over `Json.dfy` and `Utf8.dfy`; `CatchUp.dfy` joins them into an observer's whole
   path. `HandsetTranscript.dfy` and
   `TranscriptHistory.dfy` are the source's classes, each method proved against those steps.
   `Calls.dfy`, `CallRuns.dfy` and `CallObjects.dfy` join the transcripts to the job: the session
   callbacks and their guard, the feed whose failure aborts the job, and what is forwarded when.
3. **The settings.** `Settings.dfy` has the paging loop, the two loops of `resolve`, and `apply`
   on a mutable environment, against a declarative meaning that does not mention order.

## How to read it

- An asyncio task is a record: a program counter and a cancellation that its next resumption
  raises. A run is a sequence of states and of enabled events between them. Provider exceptions,
  hanging SDK calls, room changes with their callbacks, timers and the clock are events, so a claim
  about all runs covers every interleaving.
- Time is one integer clock in milliseconds. `int(remaining * 1000)` at
  `src/aida_agent/control.py:77` may drop up to one millisecond; the model takes that loss (`lost`,
  zero or one) from the environment, so claims hold for either. This is why an armed announcement
  timer may be due one millisecond after the deadline once a human has answered.
- The bounded handoff is about prompt runs: work that is due is done before the clock moves, and
  `disconnect` gives way to its timeout. `WorkerProgress.ClockMovesOn` proves that every prompt run
  can go on, so the claim is not empty.
- `close` cannot cancel a stop task before that task's first step: the task is scheduled before
  `close` begins, and the two seconds after which the cancellation comes run out in a later turn of
  the event loop.
- UUIDs are fresh, ids of history items are unique and never equal `caller-<uuid>`, an announced
  history item is appended and reported in one step, and every announced item is a message. While
  transcripts are available the session records no message with text without announcing it.
- A Dafny `char` is a Unicode scalar value.

## Where the code does less than one might expect

- **The output gate after an abort.** `abort` and `cleanup` call `silence`, but an announcement
  that is still ahead of, or waiting for, `session.interrupt` opens the output gate afterwards
  (`src/aida_agent/control.py:140-149`). `WorkerRuns.OutputReopensAfterAbort` is such a run.
  `WorkerRuns.OutputReopens` settles it in the silenced state: some later state has the output on
  if and only if the current announcement awaits the interruption, or has not begun and is ahead of
  its deadline, is not cancelled, and has a statement to say. The input gate stays off.
- **A setting with a NUL.** `apply` removes every setting before it puts the new ones, and the
  process environment refuses a value that contains a NUL character. Such a value in the store makes
  the call fail after the old settings are gone (`src/aida_agent/platform_config.py:115-117`).
  `Settings.Environment.Apply` says exactly when that happens and what is left, and
  `Settings.RefusalLosesSetting` is such a store. A failure before that point changes nothing.
- **A full handset queue.** When the event of a caller's text finds the queue full, the job aborts
  and that same text still goes to the history, because one check covers both
  (`src/aida_agent/worker.py:172-174`). Nothing is forwarded after that step.
- **Convergence.** An observer with dropped rows may still converge. `Observer.Convergence` gives
  the exact condition: the newest row of every segment written since its snapshot has arrived.

## Model

| member | source | states |
|---|---|---|
| WorkerRuns.InputExactly | src/aida_agent/worker.py:85-134 | in every reachable state the caller is heard exactly when the job is ready and not transferring, stopping, aborted or cleaned, and then the only SIP participant is the authorized leg |
| WorkerRuns.MutedRuns | src/aida_agent/worker.py:95-125 | abort and cleanup are never undone, and after either the input is never enabled again |
| WorkerRuns.OutputExactly | src/aida_agent/control.py:99-110 | until abort or cleanup, output is on exactly while screening or while the handler's own announcement plays |
| WorkerRuns.OutputReopens | src/aida_agent/worker.py:95-125 | after abort or cleanup has shut the output, some continuation of the run opens it exactly when, in the silenced state, the uncancelled current announcement awaits the interruption or has not begun before its deadline, and has something to say |
| WorkerRuns.QuietRuns | src/aida_agent/worker.py:85-103 | where that is not so, the output stays off for the rest of every run |
| WorkerRuns.OutputAfterMute | src/aida_agent/control.py:147-149 | which single step opens the output of a silenced session |
| WorkerRuns.OutputReopensAfterAbort | src/aida_agent/worker.py:95-103 | a concrete run in which the output gate opens after abort has silenced the session |
| WorkerRuns.NoObsoleteWriter | src/aida_agent/control.py:99-110 | after an accepted, timely transfer_failed of a ready job both gates stay on until the next accepted command, whatever cancelled announcements still do |
| WorkerRuns.TerminalTakeover | src/aida_agent/control.py:66-93 | stopping never reverts, no command is accepted later, one stop task exists and only moves on, with one disconnect attempt once it stops waiting and one shutdown once it ends, cancelled or not; both gates stay off once the stop path silenced them |
| WorkerRuns.OutroKeepsPlaying | src/aida_agent/control.py:85-89 | during a takeover only the end of the outro, the handoff deadline or a closing job turns the output off |
| WorkerRuns.NoStartupAfterTakeover | src/aida_agent/worker.py:107-112 | a takeover before readiness has already cancelled the startup |
| WorkerRuns.ReadinessStep | src/aida_agent/worker.py:207-221 | readiness is published once, for an authorized, started and still valid leg, with a microphone of that leg in the room that was subscribed and has its track, and with both gates still off |
| WorkerRuns.GreetingStep | src/aida_agent/worker.py:222-239 | the greeting happens once, after readiness, with both gates on, and not with a pending transfer or takeover |
| WorkerRuns.StartupOrder | src/aida_agent/worker.py:138-239 | over all runs: at most one readiness and one greeting, in that order, and behind every published readiness a step that met all those conditions |
| WorkerRuns.AbortsAreOne | src/aida_agent/worker.py:95-103 | however often and by whatever the job is aborted, abort asks for shutdown exactly once |
| WorkerRuns.CommandMemory | src/aida_agent/control.py:61-70 | the remembered ids are the last 256 accepted ids in order, so accepted ids are distinct within any 257; a packet not accepted changes nothing in the handler |
| WorkerRuns.AnnouncementOwnership | src/aida_agent/control.py:121-162 | at most one announcement can still act and the handler points to it; a current announcement implies a transfer, owns the timeout pointer, is cancelled exactly when its own timer is expiring, and while armed its timer is at the transfer deadline |
| WorkerRuns.NoLostWakeup | src/aida_agent/admission.py:56-68 | a suspended wait or subscribe_audio with its event clear has nothing in the room it would act on |
| RoomEffects.RoomEventAborts | src/aida_agent/admission.py:39-54 | a room event ends the call exactly when the leg has left or is no longer the only SIP participant among any number of others, its subscription failed or its connected microphone is lost, or the room is disconnected; otherwise the job goes on unchanged |
| RoomEffects.PublishedSubscribes | src/aida_agent/admission.py:85-96 | a published microphone of the authorized leg is subscribed, once, and nothing else is |
| RoomEffects.WaitBinds | src/aida_agent/admission.py:56-68 | two SIP participants end the startup, one with a token is bound with its identity, sid and token, otherwise the wait goes on |
| RoomEffects.AuthorizedCreates | src/aida_agent/worker.py:148-158 | a session is made, gates off, exactly when the leg is still alone |
| RoomEffects.SubscribingPublishes | src/aida_agent/worker.py:205-220 | the startup fails when the leg is not alone, waits while it has no microphone with a track, and publishes readiness when it has one |
| RoomEffects.TurnFinds | src/aida_agent/admission.py:116-129 | a turn of subscribe_audio connects exactly when a microphone of the leg is in the room with its track |
| RoomEffects.PublishedEnables | src/aida_agent/worker.py:222-239 | with the leg alone the job is ready: a pending transfer starts its announcement, and otherwise both gates go on and the caller is greeted |
| RoomEffects.FailureAborts | src/aida_agent/worker.py:95-103 | a closed session or failed feed aborts, silences, and cancels a pending startup |
| RoomEffects.ShutdownCleans | src/aida_agent/worker.py:114-125 | cleanup ends readiness, silences both gates, closes the admission and cancels the startup, once |
| RoomEffects.EntryEnds | src/aida_agent/worker.py:241-254 | a failed or cancelled startup aborts, and an aborted or taken-over job is cleaned |
| Admission.ValidExactly | src/aida_agent/admission.py:70-77 | valid exactly for an open admission whose leg is the one SIP participant of the room, with its identity, sid and token |
| WorkerRuns.SubscriptionStep | src/aida_agent/admission.py:85-96 | a publication is asked for only if it is a microphone of the bound leg, after authorization and before closing |
| WorkerRuns.Subscriptions | src/aida_agent/admission.py:131-141 | each publication is asked for once, closing takes back each once, and nothing changes afterwards |
| WorkerRuns.RunKeeps | src/aida_agent/worker.py:51-258 | the invariant of the composed job holds in every state of every run |
| WorkerInvariant.StepKeeps | src/aida_agent/worker.py:51-258 | every step of startup, commands, room events, tasks, abort and cleanup keeps the invariant |
| WorkerInvariant.BeginHolds | src/aida_agent/worker.py:63-83 | a fresh job satisfies the invariant |
| WorkerTiming.BoundedHandoff | src/aida_agent/control.py:71-93 | a takeover with deadline d accepted at t has both gates off after t + r and its one shutdown and disconnect made after t + r + 1 ms, where r is 0 if d has come, else d - t, at most 10,000 ms |
| CommandEffects.HandoffWaits | src/aida_agent/control.py:75-93 | a takeover that finds a ready job with an outro does not disconnect, nor cut the outro by its timer, before t + r, less the millisecond of truncation, unless the outro ends or the job closes |
| CommandEffects.AnsweredEffects | src/aida_agent/control.py:71-93 | human_answered: input off; a running outro kept and a missed one started with that end, or both gates off at once and a stop task with the grace that is left; before readiness it aborts |
| CommandEffects.RequestedEffects | src/aida_agent/control.py:94-98 | transfer_requested: nothing after its deadline; noted before readiness; else both gates off and one new announcement within the deadline and ten seconds |
| CommandEffects.FailedEffects | src/aida_agent/control.py:99-110 | transfer_failed: nothing after its deadline; else the transfer ends and a ready job has both gates on and says the failure notice it has |
| CommandEffects.AcceptedExactly | src/aida_agent/control.py:61-70 | a packet is accepted exactly when it is valid, before abort, cleanup and any takeover, and its id is none of the last 256 accepted |
| CommandEffects.StoppingMeansTakeover | src/aida_agent/control.py:71-74 | the job is stopping exactly when a human_answered command was accepted |
| CommandEffects.AnnouncementBegins | src/aida_agent/control.py:137-147 | an announcement ends at once when cancelled, late or failing, else awaits the interruption with its timer at the deadline |
| CommandEffects.AnnouncementGoesOn | src/aida_agent/control.py:147-162 | the output goes on and the outro is said only after a successful interruption of an uncancelled task with something to say; otherwise the task ends, muting only its own output |
| CommandEffects.TimerCuts | src/aida_agent/control.py:145-146 | the announcement timer is due at its time while the task awaits, and cancels that task |
| CommandEffects.StopTaskSteps | src/aida_agent/control.py:174-194 | each stretch of the stop task: what the handoff waits for, the silence after it, the budget of the disconnect and the one shutdown |
| WorkerTiming.AnnouncementCut | src/aida_agent/control.py:145-162 | in a prompt run no announcement that has begun outlives its deadline uncancelled |
| WorkerTiming.PromptKeeps | src/aida_agent/control.py:71-93 | where the stop task can be at each time of a prompt run |
| WorkerTiming.AnsweredWithin | src/aida_agent/control.py:71-93 | human_answered leaves a stop task whose limit lies within the grace of the command |
| WorkerProgress.ClockMovesOn | src/aida_agent/control.py:137-194 | every prompt run extends to the next millisecond, so due work is always possible and runs out |
| WorkerProgress.WorkShrinks | src/aida_agent/control.py:137-194 | each resumption of an announcement or stop task and each timer leaves strictly less to do |
| Control.ReceiveKeeps | src/aida_agent/control.py:61-111 | an accepted command keeps ownership, timers, the stop task and both gates consistent |
| Control.AnsweredKeeps | src/aida_agent/control.py:71-93 | human_answered keeps them, for an outro that is absent, new, running or expiring |
| Control.RequestedKeeps | src/aida_agent/control.py:94-98 | transfer_requested keeps them, also when it restarts a running announcement |
| Control.FailedKeeps | src/aida_agent/control.py:99-110 | transfer_failed keeps them and restores both gates |
| Control.ResumeKeeps | src/aida_agent/control.py:137-162 | resuming any announcement, cancelled or not, keeps them |
| Control.FailedSayKeeps | src/aida_agent/control.py:148-162 | a say that raises keeps them |
| Control.FireKeeps | src/aida_agent/control.py:145-146 | an expiring announcement timer keeps them |
| Control.ResumeStopKeeps | src/aida_agent/control.py:174-194 | resuming the stop task keeps them |
| Control.CloseKeeps | src/aida_agent/control.py:196-202 | closing keeps them |
| Control.RememberKeeps | src/aida_agent/control.py:66-70 | the bounded memory stays the last 256 accepted ids |
| Admission.ScanKeeps | src/aida_agent/admission.py:119-125 | the scan of a participant asks only for new microphones of the bound leg and leaves no wanted one unasked |
| Admission.SubscribeTurnKeeps | src/aida_agent/admission.py:112-129 | a turn that suspends has nothing left to act on; a turn that connects is still valid |
| Admission.ConnectedHears | src/aida_agent/admission.py:120-125 | subscribe_audio returns only with a microphone of the bound leg that was asked for and has its track |
| Admission.CloseKeeps | src/aida_agent/admission.py:131-141 | closing takes back every request once |
| Jobs.Job.Step | src/aida_agent/worker.py:51-258 | the objects updated in place take exactly the step of the model, for every enabled event |
| Jobs.Job.constructor | src/aida_agent/worker.py:63-105 | a new job is the model's first state |
| Jobs.Job.Silence | src/aida_agent/worker.py:85-93 | both gates go off, and nothing else changes in the handler |
| Jobs.Job.Abort | src/aida_agent/worker.py:95-103 | abort happens once, silences, and cancels a pending startup |
| Jobs.Job.OnData | src/aida_agent/worker.py:107-112 | a packet is received unless aborted or cleaned, and a takeover before readiness aborts |
| Jobs.Job.Cleanup | src/aida_agent/worker.py:114-125 | cleanup ends readiness, closes the admission, silences and cancels startup, once |
| Jobs.Job.OnParticipants | src/aida_agent/admission.py:39-45 | the room change and the check of the bound leg are one step |
| Jobs.Job.OnDisconnected | src/aida_agent/admission.py:47-51 | the bound leg leaving aborts, whatever the room still lists |
| Jobs.Job.OnRoomDisconnected | src/aida_agent/admission.py:53-54 | a lost room aborts |
| Jobs.Job.OnTrackPublished | src/aida_agent/admission.py:85-96 | a publication event asks for the bound microphone or aborts on a changed leg |
| Jobs.Job.OnTrackSubscribed | src/aida_agent/admission.py:98-100 | a bound track wakes the startup |
| Jobs.Job.OnTrackFailed | src/aida_agent/admission.py:102-105 | a failed subscription of the bound leg aborts |
| Jobs.Job.OnTrackUnsubscribed | src/aida_agent/admission.py:107-110 | losing the connected microphone aborts |
| Jobs.Job.AfterWait | src/aida_agent/worker.py:142-146 | the startup after connecting and after each wakeup of wait |
| Jobs.Job.CreateSession | src/aida_agent/worker.py:148-158 | a session is made, gates off, only for a valid leg with no abort or takeover |
| Jobs.Job.FirstSubscription | src/aida_agent/worker.py:205-220 | from the started session to the readiness publication or the next wait |
| Jobs.Job.NextSubscription | src/aida_agent/worker.py:207-220 | from a wakeup to the readiness publication or the next wait |
| Jobs.Job.Enable | src/aida_agent/worker.py:222-239 | the final checks, activation, both gates and the greeting in one step |
| Jobs.Job.EntryResumes | src/aida_agent/worker.py:241-254 | a failed or cancelled startup aborts, and an aborted or taken-over job cleans up |
| Handler.ControlHandler.constructor | src/aida_agent/control.py:42-59 | a handler that is not ready, with no task and no memory |
| Handler.ControlHandler.Receive | src/aida_agent/control.py:61-111 | which packets are accepted, and the whole new state of each action; a rejected packet changes nothing |
| Handler.ControlHandler.Prepare | src/aida_agent/control.py:75-85 | stopping, the capped deadline, and the outro started or its timer extended |
| Handler.ControlHandler.Reschedule | src/aida_agent/control.py:82-85 | the running announcement's own timer moves unless it is expiring |
| Handler.ControlHandler.Leave | src/aida_agent/control.py:86-93 | handoff to a running outro with input off, or immediate silence and stop |
| Handler.ControlHandler.Failed | src/aida_agent/control.py:99-110 | an in-time failure ends the transfer, cancels the announcement and restores both gates |
| Handler.ControlHandler.Activate | src/aida_agent/control.py:113-119 | ready, and the announcement that was pending starts |
| Handler.ControlHandler.StartAnnouncement | src/aida_agent/control.py:121-129 | one new announcement replaces the old one, both gates off, deadline capped |
| Handler.ControlHandler.CancelAnnouncement | src/aida_agent/control.py:131-135 | the current announcement is cancelled and both pointers cleared |
| Handler.ControlHandler.ResumeAnnouncement | src/aida_agent/control.py:137-162 | each stretch of _announce between awaits, with cancellation and SDK failures |
| Handler.ControlHandler.EndAnnouncement | src/aida_agent/control.py:155-162 | only the current announcement mutes the output when it ends |
| Handler.ControlHandler.FailedSay | src/aida_agent/control.py:148-162 | say raises: the gate is closed in the same step |
| Handler.ControlHandler.FireTimer | src/aida_agent/control.py:145-146 | the timeout cancels its task |
| Handler.ControlHandler.Silence | src/aida_agent/control.py:164-172 | both gates off |
| Handler.ControlHandler.FinishHandoff | src/aida_agent/control.py:181-184 | the outro is cancelled, the session silenced, and the disconnect gets what is left of the budget |
| Handler.ControlHandler.ResumeStop | src/aida_agent/control.py:174-194 | each stretch of _finish_handoff and _stop |
| Handler.ControlHandler.CancelStop | src/aida_agent/control.py:196-202 | a close that gives up cancels the stop task |
| SipAdmissions.SipAdmission.Participants | src/aida_agent/admission.py:35-37 | the SIP participants of the room in its order |
| SipAdmissions.SipAdmission.Validate | src/aida_agent/admission.py:70-77 | valid exactly for an open admission whose leg is the one SIP participant of the room, whoever else is there |
| SipAdmissions.SipAdmission.Changed | src/aida_agent/admission.py:39-45 | the event is set and a leg that is no longer valid aborts |
| SipAdmissions.SipAdmission.Disconnected | src/aida_agent/admission.py:47-51 | the bound leg leaving aborts |
| SipAdmissions.SipAdmission.Wait | src/aida_agent/admission.py:56-68 | one turn of the waiting loop: ambiguous, bound or suspended |
| SipAdmissions.SipAdmission.TrackPublished | src/aida_agent/admission.py:85-96 | a new bound microphone is asked for once |
| SipAdmissions.SipAdmission.TrackSubscribed | src/aida_agent/admission.py:98-100 | wakes the loop for the bound track |
| SipAdmissions.SipAdmission.Scan | src/aida_agent/admission.py:120-125 | the loop over publications up to the first connected one |
| SipAdmissions.SipAdmission.SubscribeTurn | src/aida_agent/admission.py:116-129 | one turn of the subscribing loop |
| SipAdmissions.SipAdmission.SubscribeAudio | src/aida_agent/admission.py:112-129 | authorization first, then the first turn |
| SipAdmissions.SipAdmission.SubscriptionFailed | src/aida_agent/admission.py:102-105 | aborts exactly for a request of the bound leg |
| SipAdmissions.SipAdmission.TrackUnsubscribed | src/aida_agent/admission.py:107-110 | aborts exactly for the connected bound microphone |
| SipAdmissions.SipAdmission.Close | src/aida_agent/admission.py:131-141 | every request is taken back once and in order |
| Transcripts.HandsetShowsTurns | src/aida_agent/transcripts.py:39-52 | folding the caller events by segment gives one entry for each caller turn with text, with its last text, final exactly when the turn ended; nothing follows a segment's final event |
| Transcripts.SequencesCount | src/aida_agent/transcripts.py:28-33 | sequence numbers are 1, 2, 3 and so on across both speakers |
| Transcripts.CallerMakesEvent | src/aida_agent/transcripts.py:39-52 | the event of each caller result, also of an empty final, and what the stream remembers after it |
| Transcripts.AssistantMakes | src/aida_agent/transcripts.py:54-55 | assistant text that is not blank is one final event of its item's segment, and the turn is untouched |
| Transcripts.SentText | src/aida_agent/transcripts.py:22-37 | the text sent is the longest prefix of the cleaned text that fits in 6,000 bytes, at most 12,000 bytes after JSON escaping |
| HandsetTranscript.TranscriptStream.Make | src/aida_agent/transcripts.py:22-37 | blank text makes no event and uses no number |
| HandsetTranscript.TranscriptStream.Caller | src/aida_agent/transcripts.py:39-52 | the segment and text a turn remembers, and the event it makes, also for an empty final |
| HandsetTranscript.TranscriptStream.Assistant | src/aida_agent/transcripts.py:54-55 | an assistant event leaves the caller turn alone |
| HandsetTranscript.TranscriptPublisher.Enqueue | src/aida_agent/transcripts.py:71-77 | an event joins the queue, or a full queue closes the stream |
| HandsetTranscript.TranscriptPublisher.Fail | src/aida_agent/transcripts.py:79-83 | failure is reported once |
| HandsetTranscript.TranscriptPublisher.Loop | src/aida_agent/transcripts.py:85-86 | the loop ends when the stream is closed |
| HandsetTranscript.TranscriptPublisher.Get | src/aida_agent/transcripts.py:87-93 | the oldest event is attempted |
| HandsetTranscript.TranscriptPublisher.Sent | src/aida_agent/transcripts.py:94-97 | a failed delivery closes the stream before the loop goes on |
| HandsetTranscript.TranscriptPublisher.Close | src/aida_agent/transcripts.py:99-103 | closing ends the sender and reports no failure |
| Publisher.GapFree | src/aida_agent/transcripts.py:71-103 | attempted and queued events are a prefix of those produced, all of them until the stream closes; attempted numbers are exactly 1 to k; at most one failure and none after close |
| Publisher.ClosesForGood | src/aida_agent/transcripts.py:71-97 | the first refused or failed event closes the stream for good |
| Publisher.EventsQueue | src/aida_agent/transcripts.py:71-83 | an event is refused only by a closed stream or a queue at its capacity, which closes it |
| Publisher.SenderGoesOn | src/aida_agent/transcripts.py:85-97 | the sender goes on to the next event while open, ends once closed, and reports a failure once |
| Publisher.Drains | src/aida_agent/transcripts.py:85-97 | while deliveries succeed, an open stream delivers everything it produced |
| Utf8.TruncateIsLongestPrefix | src/aida_agent/transcripts.py:27 | cutting the encoding at 6,000 bytes and ignoring a broken tail is the longest prefix that fits |
| Utf8.EncodedForm | src/aida_agent/transcripts.py:27 | one to four bytes by the range of the code point, carrying its bits in order (section 3 of RFC 3629) |
| Utf8.DecodeEncode | src/aida_agent/transcripts.py:27 | decoding an encoding gives the text |
| Utf8.DecodeTaken | src/aida_agent/transcripts.py:27 | decoding any cut of an encoding, with errors ignored, gives whole characters of the text |
| Utf8.FitIsLongest | src/aida_agent/transcripts.py:27 | a prefix fits exactly when it is no longer than the one kept |
| Utf8.TruncateKeepsShort | src/aida_agent/transcripts.py:27 | text that fits is kept whole |
| Utf8.ShortenTwice | src/aida_agent/transcripts.py:26-27 | cleaning and truncating again changes nothing |
| Utf8.ShortenMonotone | src/aida_agent/transcripts.py:25-27 | a longer revision shows the same text or an extension of it |
| History.RunKeeps | src/aida_agent/transcript_history.py:39-89 | numbering, finality, the pending row and the committed items stay consistent over every run |
| HistoryTurns.PendingText | src/aida_agent/transcript_history.py:51-72 | the pending row is the finals of this turn joined by spaces, then the latest interim result; there is none exactly when nothing was heard |
| HistoryTurns.TextGrows | src/aida_agent/transcript_history.py:51-59 | after a final result the next row of the turn is that row, a space and the new text; after a partial result the new text takes its place behind the same prefix |
| HistoryTurns.TextBegins | src/aida_agent/transcript_history.py:55 | the first row of a turn is the text itself |
| HistoryTurns.SpeakRow | src/aida_agent/transcript_history.py:54-56 | a caller row has the pending segment or a new one, is not final, and has the next number |
| HistoryTurns.CommitText | src/aida_agent/transcript_history.py:61-72 | a committed row is the item, final, in the pending segment for a user message with one, else in its own |
| HistoryTurns.RowsMade | src/aida_agent/transcript_history.py:51-63 | a row is made exactly for results that are not blank and for user or assistant text that is not empty |
| HistoryTurns.SnapshotShows | src/aida_agent/transcript_history.py:74-89 | a snapshot is, in order, one row for each user or assistant message with text, and then the pending row |
| HistoryTurns.SegmentIsTurn | src/aida_agent/transcript_history.py:54-66 | two rows of the caller share a segment exactly when no user message was committed between them |
| HistoryTurns.CommitIsNewest | src/aida_agent/transcript_history.py:61-72 | the committed row has the largest sequence of its segment, now and later |
| Observer.Convergence | src/aida_agent/transcript_history.py:39-89 | an observer that merges arrivals in any order onto a snapshot agrees with a later snapshot exactly when the newest row of every segment written since has arrived |
| Observer.ConvergesWithoutDrops | docs/TRANSCRIPT_HISTORY.md:17-22 | without dropped rows the observer always agrees, for every snapshot point and every order, with older rows among the arrivals |
| Observer.OneEntryASegment | src/aida_agent/transcript_history.py:74-89 | no snapshot has two entries with one segment |
| Observer.MergeRule | docs/TRANSCRIPT_HISTORY.md:20-22 | a final entry is never replaced by a partial, an older row changes nothing, any other row is the new revision |
| TranscriptHistories.TranscriptHistory.constructor | src/aida_agent/transcript_history.py:23-33 | an empty history with no transfer |
| TranscriptHistories.TranscriptHistory.NextRow | src/aida_agent/transcript_history.py:39-42 | each row takes the next number |
| TranscriptHistories.TranscriptHistory.Enqueue | src/aida_agent/transcript_history.py:44-49 | a row joins the queue of 128 or is dropped |
| TranscriptHistories.TranscriptHistory.Caller | src/aida_agent/transcript_history.py:51-59 | the pending row, its segment and text, and what is queued |
| TranscriptHistories.TranscriptHistory.Item | src/aida_agent/transcript_history.py:61-72 | the committed row takes over the pending segment and ends the turn |
| TranscriptHistories.TranscriptHistory.Snapshot | src/aida_agent/transcript_history.py:74-89 | the loop over the history builds the committed rows in order, and the pending row |
| TranscriptHistories.TranscriptHistory.GetTranscript | src/aida_agent/transcript_history.py:91-128 | refused with 2001, changing nothing, exactly when closed, unavailable, absent, not named admin-observer-, or without the attribute naming this room; otherwise answered as the paging model says, with the snapshot of this moment |
| TranscriptHistories.TranscriptHistory.Prune | src/aida_agent/transcript_history.py:108-109 | exactly the snapshots younger than 60,000 ms stay, unchanged |
| TranscriptHistories.TranscriptHistory.Page | src/aida_agent/transcript_history.py:117-128 | the page at an offset, and the snapshot dropped after its last page |
| TranscriptHistories.TranscriptHistory.Get | src/aida_agent/transcript_history.py:130-132 | the oldest row is sent next |
| TranscriptHistories.TranscriptHistory.Close | src/aida_agent/transcript_history.py:147-152 | closing drops every snapshot |
| Paging.PagesAreSlices | src/aida_agent/transcript_history.py:117-128 | under any interleaving a page is a slice of the text that one call of the same observer froze, the only call that froze a text for the page's token |
| Paging.FrozenOnce | src/aida_agent/transcript_history.py:115-116 | no two calls freeze a text for one token |
| Paging.TransferCompletes | src/aida_agent/transcript_history.py:91-128 | following nextOffset within 60 s is never refused and gives the whole text in exactly ceil(length / 6000) growing pages |
| Paging.StoredBounds | src/aida_agent/transcript_history.py:108-116 | at most 32 texts of at most 2 MiB characters are stored |
| Paging.FirstAnswer | src/aida_agent/transcript_history.py:110-128 | a first call: refused when the text is over 2 MiB or 32 others are under way, else the first 6,000 characters of a new frozen text |
| Paging.LaterAnswer | src/aida_agent/transcript_history.py:117-128 | a later call: the next 6,000 characters of the observer's own text, for its token, inside it and within 60 s, else refused |
| Paging.Refused | src/aida_agent/transcript_history.py:92-107 | requests not allowed or not understood are refused and change nothing |
| Paging.StoredAfter | src/aida_agent/transcript_history.py:108-128 | other observers' texts stay for 60 s, and this one's until its last page |
| CallRuns.NothingForwarded | src/aida_agent/worker.py:166-184 | nothing is forwarded to the handset feed or the history before readiness, and nothing more from a takeover, an abort or a cleanup on |
| CallRuns.CallerForwarded | src/aida_agent/worker.py:166-174 | recognized text reaches both transcripts exactly while ready, not aborted and not stopping |
| CallRuns.ItemForwarded | src/aida_agent/worker.py:176-184 | an item reaches the history, and the assistant's the handset, exactly then |
| CallRuns.JobIsRun | src/aida_agent/worker.py:138-239 | the job's part of every joint run is a run of the job, with a failing feed as one of its aborts |
| CallRuns.FeedIsRun | src/aida_agent/worker.py:172-184 | the feed's part of every joint run is a run of stream and sender |
| CallRuns.HistoryIsRun | src/aida_agent/worker.py:172-181 | what observers read while transcripts are available is the history of a run of the history model, at every step it was read |
| CallRuns.ConvergesInCall | src/aida_agent/transcript_history.py:39-89 | the convergence condition holds in runs of the whole job, for snapshots taken while transcripts are available |
| CallRuns.FeedKeepsUp | src/aida_agent/transcripts.py:71-97 | while the callbacks forward, every handset event produced has been attempted or is queued in order; a closed feed means an aborted or ending job |
| Calls.RunKeeps | src/aida_agent/worker.py:159-239 | job, feed and history stay consistent over every joint run |
| CallObjects.TranscribedCall.constructor | src/aida_agent/worker.py:159-164 | a new stream, publisher and history |
| CallObjects.TranscribedCall.Forwards | src/aida_agent/worker.py:172 | the guard of the callbacks |
| CallObjects.TranscribedCall.Publish | src/aida_agent/transcripts.py:71-83 | an event is enqueued, and a failure it reports aborts the job in the same step |
| CallObjects.TranscribedCall.OnCaller | src/aida_agent/worker.py:166-174 | recognized text goes to both transcripts under one check, or to neither |
| CallObjects.TranscribedCall.OnItem | src/aida_agent/worker.py:176-184 | an item goes to the history, and the assistant's also to the handset |
| CatchUp.CatchesUp | docs/TRANSCRIPT_HISTORY.md:3-22 | with history and transfers interleaved in any way, an observer that pages through a snapshot, parses what it collected and merges arrivals in any order agrees with a later snapshot exactly when the newest row of every segment written since its first call has arrived |
| CatchUp.SnapshotReads | src/aida_agent/transcript_history.py:74-89 | the text of a snapshot reads back as exactly its rows |
| Transfer.CollectedParses | src/aida_agent/transcript_history.py:110-128 | the collected pages parse to the snapshot of the moment the transfer began, wherever they were cut |
| Transfer.PagesFit | src/aida_agent/transcript_history.py:122-125 | every page of every run, escaped a second time, is below 15 KiB |
| Transfer.ResponseFits | src/aida_agent/transcript_history.py:122-125 | one page of printable text is below 15 KiB |
| Transfer.ProfileIsOneValue | src/aida_agent/config.py:202-219 | whatever the profile says, the instructions are the rules and one printable line that parses back to its fields |
| Transfer.ProfileFields | src/aida_agent/config.py:203-209 | each field of the block, by name, is the profile's |
| Transfer.PageReads | src/aida_agent/transcript_history.py:123-124 | a response reads back as its token, its piece of text and the next offset |
| Transfer.ProfilesDiffer | src/aida_agent/config.py:202-219 | different profiles give different instructions |
| Json.LoadsDumps | src/aida_agent/transcript_history.py:110 | reading undoes writing, in both styles of separators |
| Json.StringRoundTrip | src/aida_agent/transcript_history.py:110 | an escaped string reads back as itself, surrogate pairs included |
| Json.DumpsPrintable | src/aida_agent/transcript_history.py:110 | written text has only characters from space to tilde |
| Json.EscapePrintable | src/aida_agent/config.py:218 | an escaped string has only such characters |
| Json.EscapeForm | src/aida_agent/transcript_history.py:110 | the escape of each character: short, itself, a code unit or a surrogate pair (section 7 of RFC 8259) |
| Json.ListForm | src/aida_agent/transcript_history.py:110 | the brackets and separators of a list |
| Json.ObjectForm | src/aida_agent/transcript_history.py:110 | the braces, quotes and separators of an object |
| Json.ScalarForm | src/aida_agent/transcript_history.py:110 | the written words, numbers and strings |
| Settings.CheckDuplicates | src/aida_agent/platform_config.py:75-82 | a duplicate is reported exactly when two rows of one scope have one key that is not only white space |
| Settings.Collect | src/aida_agent/platform_config.py:83-91 | each key has the text of a cell of the highest scope that says something about it, without the white space at its ends; a key without one is said nothing about in any scope |
| Settings.WrittenExactly | src/aida_agent/platform_config.py:88-90 | a cell's value is its text without the white space at its ends, unless nothing is left |
| Settings.Resolve | src/aida_agent/platform_config.py:73-91 | fails exactly when two rows of one scope have one key; else each key resolves to the trimmed cell of the highest scope, written out on the cells |
| Settings.ValueUnique | src/aida_agent/platform_config.py:83-91 | without a duplicate a key has one value |
| Settings.OrderDoesNotMatter | src/aida_agent/platform_config.py:73-91 | any permutation of the rows fails alike or resolves alike |
| Settings.OwnScopesAndKeys | src/aida_agent/platform_config.py:19-37 | the agent's own scopes are distinct and its keys are not blank |
| Settings.FetchRows | src/aida_agent/platform_config.py:100-108 | exactly the table's rows, also for a multiple of 200, and a failure exactly when a page it reaches is unavailable |
| Settings.Environment.Remove | src/aida_agent/platform_config.py:115-116 | every setting key goes, and every other variable stays |
| Settings.Environment.Replace | src/aida_agent/platform_config.py:115-117 | the settings become the given values, or, if one contains a NUL, only some of them |
| Settings.Environment.Update | src/aida_agent/platform_config.py:117 | succeeds exactly when no value contains a NUL, and then the settings are the resolved values; what is put before a refusal is resolved values only, and other variables stay |
| Settings.Environment.Apply | src/aida_agent/platform_config.py:112-118 | succeeds exactly when configured, readable, without duplicates and without a resolved value that contains a NUL; an unreadable or ambiguous store changes nothing, a refused value leaves only settings of the store, and other variables always stay |
| Settings.NulIsRefused | src/aida_agent/platform_config.py:83-91 | a row whose value has a NUL inside resolves to that value |
| Settings.RefusalLosesSetting | src/aida_agent/platform_config.py:115-117 | with that row in the store, apply loses the setting the environment had |
| Text.StripBlank | src/aida_agent/transcripts.py:23 | stripping leaves nothing exactly of blank text |
| Text.StripTrims | src/aida_agent/platform_config.py:89-90 | stripping takes the white space off both ends and nothing else |
| Text.TrimmedOnce | src/aida_agent/platform_config.py:89-90 | there is only one such text |

## Left out

- Job: `ctx.connect`, the bootstrap HTTP call, `session.start`, `publish_data` and `session.say` are events that complete, fail or hang; `session.start` does not touch the gates.
- Job: the awaits inside `cleanup` (closing history, publisher and session, each bounded by two seconds) are not steps, except closing the handler; `session.aclose` and the final `room.disconnect` are left out.
- Calls: closing the history (`history.close`) is not a step of the joint runs; it comes after cleanup, when nothing is forwarded or answered any more.
- ControlHandler: SDK awaits honour cancellation and `speech.interrupt` does not raise; `session.interrupt` and `session.shutdown` have no state here beyond the gates.
- BoundedHandoff: assumes that due work is done before the clock moves; a worker whose event loop is starved is not bounded by it.
- AnnouncementOwnership: a running outro's timer is placed at the deadline or one millisecond after it once a human has answered, because the truncation at control.py:77 is a bound here, not floating-point arithmetic.
- TranscriptStream: `eventId`, `streamId`, `callId` and `timestamp` of an event are constants or fresh values that nothing reads; its text is kept raw in the event and shortened where it is used.
- TranscriptPublisher: the step of the sender in which `close` cancels it is immediate; what the participant does with the payload is left out.
- TranscriptHistory: `_publish` only takes rows; a failed or timed-out `send_text` loses a row, which the observer claims cover because any rows may be missing.
- GetTranscript: the JSON and type checks of the request payload are one case, `Malformed`; a missing payload is offset zero.
- LoadsDumps: the reader covers null, booleans, natural numbers, strings, lists and objects, which is all these texts hold, and refuses lone surrogates.
- ProfileIsOneValue: the fixed rules are any text; how a language model follows them is not part of this model.
- FetchRows: the store answers from one table that does not change between pages and calls no page last while rows follow it; a page's other fields are left out.
- Apply: a value with an unpaired surrogate, which the process environment may also refuse, is outside the model, whose characters are Unicode scalar values; a mapping other than the process environment need not refuse anything.
- Apply: the sorted list of keys it returns is left out, and finding the table by its name is one condition.
- `ControlCommand.parse`, the field validators, `strict_json` and URL checks: single-branch validation; a rejected packet is `None`.
- The HTTP clients, the listener, the preview server, the command line, log storage and the status counters: no property that spans operations.
