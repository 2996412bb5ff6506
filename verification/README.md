# Phone-as-webcam bridge: verified model

This project models the parts of a phone-as-webcam bridge that decide what the
user sees and what two processes believe about each other, and proves how they
behave. A phone streams video over USB or Wi-Fi to a worker process on the PC; the
worker feeds a virtual camera; a parent process with a window controls the worker
over a line protocol. None of the decision making depends on sockets, USB
transfers or a video decoder, so those appear here as inputs: scripts of what each
call returned, pictures a decoder produced, times a clock showed.

How the files divide the system:

| files | part of the system |
|---|---|
| `QualitySwitch`, `QualityRuns` | the worker's transaction machine for changing size and frame rate, and its runs |
| `WorkerLoop`, `WorkerProcess` | the worker's receive loop around that machine: as functions, and as the loop over its own variables |
| `WorkerTrail`, `WorkerTheorems`, `WorkerBoundary`, `WorkerVerdicts`, `WorkerPts` | what every run of that loop keeps |
| `WorkerProgress`, `WireFrames` | what every pass of it does, as others see it, and which frame each payload is |
| `QualityClient`, `ParentProgress`, `QualitySystem` | the parent's view of a switch, what each line does to it, and parent, mailboxes, pipes and worker together |
| `ModeResolver` | choosing an advertised mode for a saved wish, and the edition cap |
| `PreviewSeqlock`, `PreviewRecord` | the shared preview record: interleaved, and as bytes; the samplers that fill it |
| `IdentityStore`, `IdentityFiles` | publishing and recovering the per-user key: racing processes, and one process step by step |
| `IniText`, `SettingsFile`, `SettingsText`, `SettingsValues`, `SettingsLayout` | the settings file: escaping, the in-place edit, text lines, typed values, keys by name |
| `Fit`, `Rotate`, `Flips`, `Letterbox` | picture geometry, in Rust and C++ |
| `Wire`, `WireLayout`, `Framing`, `ControlLines`, `UsbQueue`, `UsbSelection` | message codecs, their layout byte by byte, frame and line transport, the USB byte queue, following a phone across ports |
| `ClientAuth` | the authorization exchange |
| `Reconnect`, `ReconnectBound`, `ReconnectPick`, `ReconnectQuiet`, `ReconnectScenes`, `ReconnectProgress`, `ReconnectWindow` | automatic reconnection: frames and runs, how many dials they can make, when they make them, picking a transport meanwhile, what Disconnect ends, three runs frame by frame, and the window over its own fields |
| `Probe` | the USB gate's accounting |
| `Basics`, `Bytes`, `Arithmetic` | fixed-width integers, little-endian bytes, products and quotients |

Code that changes state in place is modelled as a class or a method with loops and
proved equal to a function; the properties are proved about the function, over
every run, script or interleaving. For each state machine they come in two halves:
what a visible act implies, and when it is done. Formats and pictures are also pinned
to literal bytes, apart from the functions that encode and decode them. `dafny verify dfyconfig.toml` checks everything.

What the code does where its documentation promises more:

- Request ids are 32 bits. When they run out the worker drops a command without a
  word (`QualityRuns.PreparedUnlessExhausted`); the parent's watchdog ends the
  session (`QualitySystem.DroppedCommandsTimeOut`).
- A refusal while the phone is staged is reported as non-terminal although the old
  outputs are already gone (`WorkerBoundary.StagedRefusalIsNotTerminal`).
- Presentation times are compared only once a picture has been decoded
  (`WorkerPts.TimeIsCheckedOnlyOnceDecoding`).
- The preview promises that a torn picture is never shown. A producer starts its
  sequence numbers at zero again, so a reader that began on a record left by an
  earlier producer can accept a mixture. The promise holds exactly for records whose
  header the new producer cannot repeat (`PreviewSeqlock.SafeExactlyWhenUnrepeatable`),
  and for every read that starts after the new producer's first header write.
- A published picture without pixels makes the record unreadable rather than empty
  (`PreviewRecord.LatestOfStored`), and one too large for the record is dropped
  silently (`PreviewRecord.SampledFramesAreAccepted`).
- Saving the same settings twice leaves the file's lines alone but its text only if
  no foreign line ends in a carriage return of its own
  (`SettingsText.TextIsAFixedPoint`, with `SettingsText.StrayReturnIsLost`).
- The bound on automatic reconnections survives a change of transport exactly when
  the dials that are then owed fit what is left of it: picking Wi-Fi while a USB wait
  or a reconnect timer is outstanding can break it, and so can a Wi-Fi switch
  (`ReconnectPick.PickKeepsBound` and `ReconnectPick.SwitchKeepsBound`, with the run in
  `ReconnectScenes.PickingMeanwhileExceeds`).
- Disconnect stops automatic dials for good exactly when no Wi-Fi switch is pending:
  pressed while the worker is still stopping for the switch, it is undone by the
  switch's completion, which dials (`ReconnectQuiet.DisconnectIsFinal`, with the run in
  `ReconnectScenes.DisconnectMeetsSwitch`).
- The letterbox's opaque background is laid out by absolute byte position, so it is
  opaque black in a row exactly when the row starts on a multiple of four bytes
  (`Letterbox.BackgroundIsBlack`).
- The average round trip divides a 64-bit sum that may wrap; it is the mean exactly when
  it does not (`Probe.AverageIsMean`, with `Probe.WrappedAverage`).

## Model

| member | source | states |
|---|---|---|
| QualitySwitch.Switch.PrepareRequest | host-rs/src/quality.rs:148-176 | a settled machine takes up a nonzero mode under the next id and arms the deadline; a busy one, a zero field or an exhausted id changes nothing |
| QualitySwitch.Switch.Step | host-rs/src/quality.rs:186-325 | the in-place machine computes the reference machine on every event; that it moves whenever it can, and to what anyone outside sees, is what the `WorkerProgress` rows state |
| QualityRuns.EveryRunIsSequential | host-rs/src/quality.rs:148-302 | the actions of any event sequence are those of requests one after another, ids increasing, each with one release at most and always before Applied, one commit at most and right after the release, one verdict at most |
| QualityRuns.CommitFollowsPause | host-rs/src/quality.rs:240-259 | a commit is sent if and only if a pause names the pending request at the known epoch, and it carries the epoch one past it |
| QualityRuns.OnlyPrepareAndUnstagingArm | host-rs/src/quality.rs:186-325 | a deadline is set only by preparing and by leaving the staged wait, always five seconds ahead |
| QualityRuns.StaysOnTime | host-rs/src/quality.rs:303-309 | one timely event keeps the deadline discipline: a deadline exactly while busy, two arms at most, active time bounded |
| QualityRuns.DeadlineDiscipline | host-rs/src/quality.rs:148-325 | every timely event sequence keeps that discipline |
| QualityRuns.DeadlinesFromTheStart | host-rs/src/quality.rs:148-325 | from the start, a request is never active longer than two deadlines and two polling gaps |
| QualityRuns.PreparedUnlessExhausted | host-rs/src/quality.rs:163-168 | a settled machine takes up a valid request if and only if an id is left; otherwise it neither moves nor says anything |
| QualityRuns.FailuresNameTheirCause | host-rs/src/quality.rs:186-325 | each of the five reasons is reported if and only if its own event meets its own condition; a failure closes the connection unless it is a refusal before the boundary or the user's stop |
| WorkerProcess.ReceiveLoop.Report | host-rs/src/video.rs:633-654 | verdicts reach the parent in order with the terminal flag of the whole answer, and a stop or close ends the loop |
| WorkerProcess.ReceiveLoop.TakeRequest | host-rs/src/video.rs:326-377 | a request is refused at once without advertisement, permission or an advertised mode; otherwise it goes to the machine and on to the phone |
| WorkerProcess.ReceiveLoop.CheckExpiry | host-rs/src/video.rs:380-395 | an expired busy request reports a terminal failure and ends the loop |
| WorkerProcess.ReceiveLoop.OnControl | host-rs/src/video.rs:476-517 | a control frame is answered by report, teardown, commit and progress in that order |
| WorkerProcess.ReceiveLoop.OnCapabilities | host-rs/src/video.rs:417-442 | an advertisement replaces revision, permission and usable modes and shows the machine its epoch |
| WorkerProcess.ReceiveLoop.OnConfig | host-rs/src/video.rs:518-541 | a configuration is judged by the machine while it waits for video and must not change otherwise |
| WorkerProcess.ReceiveLoop.OnReceived | host-rs/src/video.rs:566-579 | a picture of the wrong size or an odd width ends the loop; the first one opens the sink for its configuration |
| WorkerProcess.ReceiveLoop.OnPicture | host-rs/src/video.rs:566-620 | only an active sink that took the picture lets the machine report success |
| WorkerProcess.ReceiveLoop.OnUnit | host-rs/src/video.rs:542-621 | a unit is skipped before the first keyframe with configuration, refused when late, otherwise decoded and shown picture by picture |
| WorkerProcess.ReceiveLoop.Pass | host-rs/src/video.rs:323-621 | one pass of the loop over its own variables computes the reference pass; what each frame makes of it, in the loop's own fields and log, is what the `WorkerProgress` rows state, and which frame a payload is, byte by byte, the `WireFrames` rows |
| WorkerProcess.ReceiveLoop.Run | host-rs/src/video.rs:323-622 | so is every run |
| WorkerProcess.ReceiveLoop.Stop | host-rs/src/video.rs:623-631 | stopping gives an open request its failure, then says the worker stopped |
| WorkerTheorems.QualityActions | host-rs/src/quality.rs:203-259 | a control answer releases only while preparing, commits only with a release, and never swaps the requested mode |
| WorkerTheorems.OutputReadyAnswers | host-rs/src/quality.rs:291-302 | success is reported only from awaiting output and only for the requested mode |
| WorkerTheorems.ConfigAligns | host-rs/src/video.rs:518-541 | an accepted configuration keeps the loop's variables and the landmarks of its history in agreement |
| WorkerTheorems.SubmittingEarns | host-rs/src/video.rs:583-593 | a submission that triggers the report leaves everything the report claims in the history |
| WorkerTheorems.RunsKeep | host-rs/src/video.rs:323-622 | in every run variables and history agree and every report so far was earned |
| WorkerTheorems.AppliedIsAlwaysEarned | host-rs/src/video.rs:323-622 | every applied report follows, since its request's release, only configurations of that mode, a fresh decoder first fed a keyframe with configuration, and a decoded picture of that size submitted to a sink opened for it |
| WorkerProgress.AppliedIsReported | host-rs/src/video.rs:323-622 | the converse, in every run: a request that awaits output and gets a picture of its size into an active sink is reported as applied in that very pass, is the applied mode, and has no deadline left |
| WorkerProgress.PictureIsShown | host-rs/src/video.rs:566-620 | a good picture is counted, opens the sink if none is open, is handed to an active one, and only then lets an awaiting request succeed, in that order in the log |
| WorkerProgress.WrongPictureEnds | host-rs/src/video.rs:566-571 | a picture of another size or of an odd width ends the loop before it is counted |
| WorkerProgress.RequestGoesOut | host-rs/src/video.rs:326-377 | a request for an offered mode goes out under the next id with its deadline five seconds ahead, and nothing else changes |
| WorkerProgress.RequestRefused | host-rs/src/video.rs:327-346 | without an advertisement, a permission or that mode among the offers it is refused at once, not terminally |
| WorkerProgress.ExpiryEnds | host-rs/src/video.rs:380-395 | at its deadline an open request that waits for no human is reported as a terminal failure and the loop ends |
| WorkerProgress.StagedIsToldAndWaits | host-rs/src/video.rs:443-517 | STAGED while preparing: outputs released, then waiting and staged progress told, and no deadline |
| WorkerProgress.SwitchingIsToldAndTimed | host-rs/src/video.rs:443-517 | SWITCHING while staged: the wait is told to be over and five seconds run from then |
| WorkerProgress.PauseIsCommitted | host-rs/src/video.rs:466-517 | PAUSED at the known epoch: outputs released and a commit for the epoch one past it, then unstaged progress |
| WorkerProgress.CaptureIsTaken | host-rs/src/video.rs:458-464 | a running capture in the requested mode ends a staged wait with five seconds left, and changes nothing for a request already switching |
| WorkerProgress.CaptureMismatchEnds | host-rs/src/quality.rs:272-290 | a capture in another mode fails the request for good and ends the loop |
| WorkerProgress.LateRefusalEnds | host-rs/src/quality.rs:221-239 | so does a refusal past the boundary |
| WorkerProgress.EpochOverflowEnds | host-rs/src/quality.rs:240-259 | so does a pause at the last epoch there is |
| WorkerProgress.StrayAnswersAreIgnored | host-rs/src/quality.rs:203-239 | an acceptance or a refusal for another request, or one nobody waits for, leaves the whole worker as it was |
| WorkerProgress.StrayCapturesAreIgnored | host-rs/src/quality.rs:240-290 | so does a capture or a pause for another request, out of turn or at another epoch |
| WorkerProgress.AdvertisementIsTaken | host-rs/src/video.rs:417-442 | permission, revision and exactly the usable modes are taken over and told; the epoch is, exactly while no request is open |
| WorkerProgress.ConfigurationIsTaken | host-rs/src/video.rs:518-541 | a configuration of the requested mode while video is awaited starts the wait for output, with five seconds left if the request was staged |
| WorkerProgress.WrongConfigurationEnds | host-rs/src/video.rs:518-541 | one of another mode then ends the loop with a terminal failure |
| WorkerProgress.ConfigurationOutsideASwitch | host-rs/src/video.rs:536-541 | outside a switch the first or a repeated configuration is taken and a changed one ends the loop |
| WorkerProgress.MalformedEnds | host-rs/src/video.rs:403-519 | a payload its decoder refuses ends the loop |
| WorkerProgress.Parses | host-rs/src/video.rs:28-50 | the sixteen bytes of a configuration: sizes and rate at 0, 2 and 4, codec and format one at 12 and 13, and the limits they must keep, in both directions |
| WorkerProgress.StopSays | host-rs/src/video.rs:623-631 | a stop fails an open request, not terminally, and then ends the loop |
| WireFrames.AnswersByByte | host-rs/src/video.rs:443-465 | which of the four answers a quality result is, from byte 4 of its fourteen, with its id, reason and mode at their offsets |
| WireFrames.OtherFramesByByte | host-rs/src/video.rs:403-560 | what every other frame type is taken for, with the three flags of an access unit |
| WireFrames.AnswersAreUnderstood | host-rs/src/video.rs:443-475 | an encoded answer or pause is taken for what was encoded |
| WireFrames.StagedBytesAreTold | host-rs/src/video.rs:443-517 | from the wire to the parent: fourteen bytes that say STAGED, and later SWITCHING, end as the releases, lines, phase and deadline those answers mean |
| WorkerBoundary.CommitsFollowTeardown | host-rs/src/video.rs:476-517 | every commit of every run goes out directly after the teardown and names the latest request sent |
| WorkerBoundary.CommitLeavesNothing | host-rs/src/video.rs:476-517 | in every run, the pass that sends a commit leaves the loop without configuration, sink, decoder, clock or counts of the old stream |
| WorkerBoundary.EarlyRefusalTouchesNothing | host-rs/src/quality.rs:221-239 | a refusal while preparing leaves the running stream as it was and is reported as non-terminal |
| WorkerBoundary.StagedRefusalIsNotTerminal | host-rs/src/quality.rs:221-239 | in every run a refusal while staged is also reported as non-terminal, and the loop goes on with no configuration, sink or decoder |
| WorkerVerdicts.PassAccounts | host-rs/src/video.rs:326-517 | a pass answers its command at once, opens it as the one request, or drops it; verdicts settle the open request, one each |
| WorkerVerdicts.DropsOnlyWhenExhausted | host-rs/src/quality.rs:163-164 | a taken command vanishes without a verdict if and only if it was acceptable and the ids had run out |
| WorkerVerdicts.StoppingSettles | host-rs/src/video.rs:623-631 | stopping gives an open request exactly one verdict and leaves none open |
| WorkerPts.TimesRiseOnceDecoding | host-rs/src/video.rs:546-561 | in every run, after a picture has been decoded since the latest release each unit fed is later than the one before |
| WorkerPts.TimeIsCheckedOnlyOnceDecoding | host-rs/src/video.rs:546-563 | every unit that passes the start test, keyframe or not, decoder open or not, is fed if and only if it is not late for a decoding that has begun, the decoder opens and the decoder takes it; before the first picture an earlier time is fed |
| QualityClient.AlwaysGuarded | host-rs/src/session.rs:424-480 | whatever the parent hears or the user presses, the watchdog runs exactly while an apply is pending and not staged |
| QualityClient.AdvertiseBegins | host-rs/src/quality/client.rs:45-62 | an advertisement starts one apply at most, of a usable advertised mode, and only when none is pending |
| QualityClient.FirstAdvertisementApplies | host-rs/src/quality/client.rs:45-83 | the first usable advertisement applies the saved wish if it resolves and Auto otherwise |
| QualityClient.Client.BeginApply | host-rs/src/quality/client.rs:63-83 | an apply begins only when ready, resolvable, not already pending and not already applied, and says why otherwise |
| QualityClient.Client.OnAdvertise | host-rs/src/quality/client.rs:45-62 | the in-place view takes the usable modes and begins the saved wish once per connection |
| QualityClient.Client.OnConfirmed | host-rs/src/quality/client.rs:90-100 | only the pending mode is confirmed; any other confirmation fails the apply |
| QualityClient.Session.Prepare | host-rs/src/session.rs:249-264 | a wish is accepted if and only if the session is live, nothing is pending, the phone is ready and a mode resolves; it then queues one command with a watchdog, and a refusal changes nothing |
| QualityClient.Session.OnNote | host-rs/src/session.rs:355-461 | each line from the worker moves session state, view, watchdog and mailbox as the reference does; a heard failure leaves the session open if and only if it is not terminal, a heard success if and only if that mode was pending; every other line is stated field by field in the `ParentProgress` rows |
| QualityClient.Session.CheckWatchdog | host-rs/src/session.rs:471-480 | an expired watchdog fails the apply and ends the session |
| QualityClient.Session.Finish | host-rs/src/session.rs:506-533 | nothing pending survives the end of a session |
| ParentProgress.FailureEndsExactlyIfTerminal | host-rs/src/session.rs:449-456 | a failure clears the apply and its watchdog and is kept as the error; the session ends if and only if it is terminal |
| ParentProgress.ExpectedQualityIsApplied | host-rs/src/session.rs:441-443 | the pending mode becomes the applied one, and the session goes on with nothing pending |
| ParentProgress.UnexpectedQualityEnds | host-rs/src/session.rs:441-448 | any other ends the session as failed |
| ParentProgress.ProgressMovesTheWatchdog | host-rs/src/session.rs:432-440 | a staged apply has no watchdog, one that ceases to be staged has five seconds, and what was applied is no longer shown |
| ParentProgress.StatisticsShowTheStream | host-rs/src/session.rs:392-415 | streaming is shown exactly for submitted pictures of an active sink, and their mode taken as applied exactly while nothing is pending |
| ParentProgress.OtherLinesMoveTheStateAlone | host-rs/src/session.rs:358-461 | waiting and error lines set the state alone; after a stop or the end nothing does |
| ParentProgress.StoppedEnds | host-rs/src/session.rs:457-457 | the last line ends the session and a failure stays the state |
| ParentProgress.AdvertisementIsKept | host-rs/src/quality/client.rs:45-53 | the view takes permission and exactly the usable modes; it is ready if and only if permission is zero and one is usable |
| ParentProgress.LaterAdvertisementsOnlyInform | host-rs/src/quality/client.rs:45-62 | after the first one that found the phone ready they start nothing |
| ParentProgress.FirstAdvertisementOpens | host-rs/src/session.rs:424-431 | that first one opens an apply under a five-second watchdog with its command in the mailbox |
| ParentProgress.PressOpensAnApply | host-rs/src/session.rs:249-264 | a press of Apply opens one, only clears the error when the mode is applied already, and otherwise changes nothing |
| ParentProgress.RefusedWishesSayWhy | host-rs/src/quality/client.rs:63-75 | a wish that cannot begin is not ready or unsupported, in that order |
| ParentProgress.WatchdogEndsInTime | host-rs/src/session.rs:471-480 | the watchdog ends the session at its time and not before |
| ParentProgress.StopClearsTheApply | host-rs/src/session.rs:284-307 | a stop leaves nothing pending and no watchdog |
| QualitySystem.AlwaysConsistent | host-rs/src/session.rs:354-461 | every interleaving of parent, writer, reader, worker and phone keeps commands and verdicts in balance |
| QualitySystem.EveryCommandIsAccountedFor | host-rs/src/video.rs:326-377 | one apply at most is in flight; each command is in flight, answered by exactly one verdict, or dropped because ids ran out |
| QualitySystem.NothingIsOverwritten | host-rs/src/session.rs:237-246 | a command reaches the writer's slot, and later the worker's, only when that slot is empty |
| QualitySystem.ConfirmationsAreExpected | host-rs/src/session.rs:441-448 | a listening parent hears of an applied quality only when that very mode is pending |
| QualitySystem.DroppedCommandsTimeOut | host-rs/src/session.rs:471-480 | a dropped command is under a watchdog while unstaged, and its expiry ends the session |
| QualitySystem.AppliedIsEarnedAndExpected | host-rs/src/session.rs:441-448 | end to end: in every interleaving a quality on its way to the parent as applied is backed by the worker's history, and a listening parent has that very mode pending |
| QualitySystem.EarlyFailuresAreSurvived | host-rs/src/session.rs:449-456 | in every interleaving a failure told as not terminal leaves a listening parent listening with nothing under way and room for the next request; a terminal one closes it |
| QualitySystem.SuccessIsShown | host-rs/src/session.rs:441-443 | in every interleaving a heard success is shown as the applied mode by a parent that goes on with nothing pending |
| QualitySystem.PressesReachThePhone | host-rs/src/session.rs:237-264 | from every reachable state in which a press asks for something new and nothing waits in the pipe, the request is on its way to the phone four steps later |
| ModeResolver.ResolveIsBest | host-rs/src/quality/preference.rs:25-51 | a wish resolves unless malformed or unmet, to a usable advertised mode that meets it and ranks before every other candidate mode |
| ModeResolver.PickedModeIs | host-rs/src/quality/preference.rs:25-69 | the order in plain numbers: highest rate up to 30, then lowest above, nearest to 16:9, nearest to 1280 by 720, narrowest, lowest; and the limits the mode keeps |
| ModeResolver.NothingIsPickedIf | host-rs/src/quality/preference.rs:18-37 | a wish resolves to nothing if and only if it is malformed in one of five ways or unmet |
| ModeResolver.FirstOfferIsPicked | host-rs/src/quality/preference.rs:29-50 | of several offers of one mode the first is taken, with its bitrate |
| ModeResolver.ResolveIgnoresOrder | host-rs/src/quality/preference.rs:25-51 | lists with the same entries give the same size and rate |
| ModeResolver.AutoResolves | host-rs/src/quality/preference.rs:25-51 | Auto resolves if and only if a usable mode is advertised |
| ModeResolver.ClampIsAProjection | host-rs/src/quality/edition.rs:47-57 | clamping settles in one step, keeps a wish valid and changes exactly the wishes that ask beyond the cap |
| ModeResolver.EditionIs | host-rs/src/quality/edition.rs:26-66 | the shipped cap in plain numbers, either way round, and which fields of a wish it replaces |
| ModeResolver.ClampSparesPublishedWishes | host-rs/src/quality/edition.rs:36-57 | a wish that resolves within the cap is never changed |
| ModeResolver.CoercionAlwaysResolves | host-rs/src/quality/edition.rs:81-87 | a coerced wish resolves as soon as anything usable is advertised, and a wish is rewritten only when it did not resolve |
| PreviewSeqlock.BeginOrderly | host-rs/src/preview.rs:112-121 | starting a publish, failed or not, never leaves an even number over bytes that are not that number's frame |
| PreviewSeqlock.EndOrderly | host-rs/src/preview.rs:122-125 | the closing number is published only over a completely written frame |
| PreviewSeqlock.ReadsAreNeverTorn | host-rs/src/preview.rs:111-162 | for any interleaving and any failing writes, a read of a record this producer cannot mimic gives nothing, one whole published frame, or the frame already there |
| PreviewSeqlock.LaterReadsAreNeverTorn | host-rs/src/preview.rs:111-162 | the same for any record at all once this producer has written its header |
| PreviewSeqlock.RestartCanTear | host-rs/src/preview.rs:105-125 | for every inherited valid, even, positive header some interleaving returns a frame that nobody published |
| PreviewSeqlock.SafeExactlyWhenUnrepeatable | host-rs/src/preview.rs:105-162 | all runs are free of torn reads if and only if the inherited header cannot be repeated |
| PreviewSeqlock.IdleReadsTheLastFrame | host-rs/src/preview.rs:140-161 | with the writer idle after a successful publish a read returns that frame |
| PreviewRecord.ParseOfHeader | host-rs/src/preview.rs:48-83 | a written header parses to its number and sizes, or to nothing for a frame without pixels |
| PreviewRecord.ParseOfRenumbered | host-rs/src/preview.rs:123-124 | overwriting the eight number bytes changes the parsed number only |
| PreviewRecord.ParsedSizes | host-rs/src/preview.rs:74-76 | an accepted header fits the record unless its sizes wrapped, which takes 2^62 pixels |
| PreviewRecord.HeaderLayout | host-rs/src/preview.rs:48-83 | a header byte by byte: it parses to a number and two sizes if and only if magic, version, number, sizes and length lie at their offsets, low byte first, within the limits |
| PreviewRecord.LatestOfStored | host-rs/src/preview.rs:112-161 | a stored frame reads back exactly, except that one without pixels reads as nothing |
| PreviewRecord.Producer.Publish | host-rs/src/preview.rs:112-125 | an accepted frame replaces the record and reads back; any other frame changes neither record nor number |
| PreviewRecord.Consumer.ReadLatest | host-rs/src/preview.rs:140-161 | an undisturbed reader returns what the record holds |
| PreviewRecord.RgbaToRgba | host-rs/src/preview.rs:221-244 | the loops give the picture of middle pixels; every four output bytes are the four source bytes at the stated offset, or opaque black outside the buffer |
| PreviewRecord.YuyvToRgba | host-rs/src/preview.rs:183-218 | likewise for YUYV: with g the column's group, the conversion of bytes g, or g + 2 for an odd column, g + 1 and g + 3, and 255; neutral dark grey outside the buffer |
| PreviewRecord.ThumbnailAt | host-rs/src/preview.rs:193-242 | each output pixel is the middle source pixel of its block |
| PreviewRecord.RgbaBytes | host-rs/src/preview.rs:221-244 | where every byte of an RGBA preview comes from, on the buffers alone |
| PreviewRecord.YuyvBytes | host-rs/src/preview.rs:183-218 | where every byte of a YUYV preview comes from, on the buffers alone |
| PreviewRecord.PaddingIsInvisible | host-rs/src/preview.rs:227-243 | RGBA buffers that agree on the visible bytes of every row give the same preview |
| PreviewRecord.YuyvPaddingIsInvisible | host-rs/src/preview.rs:181-218 | so do YUYV buffers, whatever the stride, width parity and colour conversion |
| PreviewRecord.StepOneCopies | host-rs/src/preview.rs:227-243 | a tightly packed picture sampled at every pixel is itself |
| PreviewRecord.StepForIsLeast | host-rs/src/preview.rs:262-268 | the step is the least that gives 320 columns or fewer, and a wider source keeps at least 160 |
| PreviewRecord.SampledFramesAreAccepted | host-rs/src/preview.rs:113-115 | a sampled frame is published if and only if it has at most 320 times 1024 pixels, so always up to 1024 rows |
| IdentityStore.MoveKeepsSafe | host-rs/src/identity/store.rs:87-111 | no single call takes the last lasting name from a file that has been at the path |
| IdentityStore.StepKeeps | host-rs/src/identity/store.rs:49-214 | every system call of every process, working or failing, keeps names, files and answers in order |
| IdentityStore.NothingIsLost | host-rs/src/identity/store.rs:49-214 | whatever was at the path at some instant keeps its bytes and is ever after at the path or under a quarantine name, with any launches and recoveries interleaved |
| IdentityStore.LoadsReturnWhatWasThere | host-rs/src/identity/store.rs:153-214 | a successful launch returns a complete key whose file was at the path during the call |
| IdentityStore.RecoverySetsAside | host-rs/src/identity/store.rs:87-111 | a recovery's quarantine name holds for ever a file that was at the path during the recovery |
| IdentityStore.FirstLaunchesAgree | host-rs/src/identity/store.rs:153-214 | however many first launches race, each that succeeds returns the identity stored at the path |
| IdentityStore.OnlyFailuresFail | host-rs/src/identity/store.rs:153-214 | without recoveries a launch fails only when a system call does; "changed during creation" is never reported |
| IdentityStore.LaunchFinishes | host-rs/src/identity/store.rs:153-214 | undisturbed, a launch returns a stored key in two calls and otherwise stores its own in seven, leaving nothing else behind |
| IdentityStore.RecoveryFinishes | host-rs/src/identity/store.rs:87-111 | undisturbed, a recovery ends with the old file under the first free name, the new key at the path and everything else as it was |
| IdentityFiles.Directory.ReserveQuarantine | host-rs/src/identity/store.rs:49-84 | the first free name of the second is taken, at most a thousand are tried, and only a failed call or a thousand taken names prevent it |
| IdentityFiles.Directory.ReadAt | host-rs/src/identity/store.rs:113-151 | reading tells apart nothing there, a key, junk and a failed call, and is decided by what is at the path unless a call failed |
| IdentityFiles.Directory.LoadAt | host-rs/src/identity/store.rs:153-214 | a stored file is never replaced; unless a call failed a stored key is returned, junk is corrupt, and where nothing is stored the generated key is stored and returned with no temporary file left |
| IdentityFiles.Directory.ReplaceAt | host-rs/src/identity/store.rs:87-111 | success leaves the old bytes under a name that was free and a new key at the path, failure leaves them findable; unless a call failed it succeeds whenever a file is at the path and the two names it needs are free |
| IniText.DecodeIni | host-rs/src/settings.rs:488-529 | the decoding loop, with every error, computes the reference decoder |
| IniText.EncodeIni | host-rs/src/settings.rs:531-566 | the encoding loop computes the reference encoder |
| IniText.DecodeOfEncode | host-rs/src/settings.rs:488-566 | every string survives being saved and read back |
| IniText.EncodeIsOneLine | host-rs/src/settings.rs:540-565 | an encoded value is quoted and contains no control character, so no line break |
| IniText.PlainTextIsItself | host-rs/src/settings.rs:488-566 | text without quotes, backslashes, control characters or a leading @ is written between quotes as it is and read with or without them |
| IniText.EscapesStandFor | host-rs/src/settings.rs:495-504 | the nine letter escapes, in front of anything |
| IniText.HexEscapeIs | host-rs/src/settings.rs:505-514 | a hex escape takes every hex digit that follows |
| IniText.RefusedForms | host-rs/src/settings.rs:494-527 | what is refused, and as what |
| IniText.WrittenForms | host-rs/src/settings.rs:531-563 | the escapes a writer uses, with the hex digit after a hex escape |
| SettingsFile.ParseIni | host-rs/src/settings.rs:467-486 | the reading loop takes exactly the known keys of the [General] section, the last one winning |
| SettingsFile.EditLines | host-rs/src/settings.rs:330-354 | the editing loop drops the known lines and puts the new ones right after the first [General] |
| SettingsFile.SavedIsRead | host-rs/src/settings.rs:321-354 | whatever the file held, its new lines parse to exactly the saved values |
| SettingsFile.SaveKeepsTheRest | host-rs/src/settings.rs:332-354 | every other line and section stays, in order; only a missing [General] is added |
| SettingsFile.SaveIsAFixedPoint | host-rs/src/settings.rs:332-354 | saving the same values again changes no line |
| SettingsText.SavedTextIsRead | host-rs/src/settings.rs:321-374 | the written text, split into lines again, parses to exactly the saved values |
| SettingsText.TextIsAFixedPoint | host-rs/src/settings.rs:332-374 | saving twice leaves the text unchanged if and only if no kept line ends in a carriage return |
| SettingsText.StrayReturnIsLost | host-rs/src/settings.rs:332-374 | such a text: one foreign line with a carriage return of its own |
| SettingsValues.NumberRoundTrip | host-rs/src/settings.rs:149-173 | a written number parses back, within its width |
| SettingsValues.QualityRoundTrip | host-rs/src/settings.rs:176-188 | a valid wish survives as three numbers |
| SettingsValues.ValuesRoundTrip | host-rs/src/settings.rs:140-203 | valid settings survive values and back, up to trimming three texts and clamping the wish to the edition |
| SettingsValues.ReloadSettles | host-rs/src/settings.rs:140-203 | a second reload changes nothing more |
| SettingsValues.Store.Save | host-rs/src/settings.rs:321-392 | a save is refused exactly for invalid settings or a file that no longer loads, leaving it alone; otherwise the file loads back as the saved settings |
| SettingsLayout.TextsAreLoaded | host-rs/src/settings.rs:164-203 | what each text key sets, by its own name, and the default without it |
| SettingsLayout.SwitchesAreLoaded | host-rs/src/settings.rs:164-215 | `mirror` and `verticalFlip` take true, 1, false and 0, and nothing else loads |
| SettingsLayout.NumbersAreLoaded | host-rs/src/settings.rs:164-186 | `rotation` must be a number; an unreadable `lastConnected` is never |
| SettingsLayout.WishIsLoaded | host-rs/src/settings.rs:176-203 | the three quality keys are one wish, clamped to the edition, or Auto as a whole, each with its warning |
| SettingsLayout.ValuesAreWritten | host-rs/src/settings.rs:140-160 | what is written under each of the fourteen keys, by its own name |
| SettingsLayout.ValidSettingsAre | host-rs/src/settings.rs:95-139 | settings are valid if and only if every field is within its stated set or limits |
| SettingsLayout.NumbersAreDecimal | host-rs/src/settings.rs:173-182 | one more digit is ten times the value and the digit |
| SettingsLayout.TrimsTheEnds | host-rs/src/settings.rs:143-148 | trimming takes exactly the white space at both ends |
| SettingsLayout.FileIsRead | host-rs/src/settings.rs:467-486 | the file by its own text: a known key under [General] sets its value, quoted or not; elsewhere or behind a comment mark it sets nothing |
| Fit.FitIsTight | host-rs/src/video/transform.rs:8-32 | a fitted rectangle is inside the output on even columns, touches full height or width, is as large as the shape allows to the next even column or row, and is centred |
| Fit.FitIsLargest | host-rs/src/video/transform.rs:18-22 | no scaled copy that fits the output is higher or two columns wider |
| Fit.FitRefuses | host-rs/src/video/transform.rs:14-25 | the only refusals are senseless sizes and shapes that leave under two columns or one row |
| Fit.BothFitsAgree | host/src/image_transform.cpp:67-87 | behind its guards, which refuse exactly the products beyond 64 bits, the C++ form equals the Rust one |
| Fit.ProgramSizesAreGuarded | host/src/image_transform.cpp:71-75 | for 32-bit sizes the guards never fire |
| Rotate.BackOfTurn | host-rs/src/video/transform.rs:58-64 | no two source pixels share a destination, and every one is inside it |
| Rotate.TurnOfBack | host-rs/src/video/transform.rs:58-64 | every destination pixel has a source pixel |
| Rotate.Rotate | host-rs/src/video/transform.rs:33-70 | the loops accept exactly fitting buffers and known angles, leave the destination alone otherwise, and give the rotated buffer |
| Rotate.PixelArrives | host-rs/src/video/transform.rs:56-68 | every source pixel arrives whole at its turned place |
| Rotate.TurnsClockwise | host-rs/src/video/transform.rs:56-68 | the turn on the buffers alone: at 90 the source's top left is at the top right, at 180 at the bottom right, at 270 at the bottom left, and every byte between |
| Rotate.PaddingIsKept | host-rs/src/video/transform.rs:65-66 | padding and everything past the last row is never written |
| Rotate.QuarterTurns | host-rs/src/video/transform.rs:58-64 | 270 after 90 is the identity and 90 twice is 180, pixel by pixel, through any strides |
| Rotate.TurningBackRestores | host-rs/src/video/transform.rs:33-70 | without padding the buffers themselves agree |
| Rotate.ChecksAgree | host/src/image_transform.cpp:10-18 | the C++ buffer checks accept exactly what the Rust ones accept |
| Rotate.RotateCpp | host/src/image_transform.cpp:89-139 | the C++ loops, whole rows for no turn and pixels otherwise, give the same buffer |
| Flips.SwapLumas | host-rs/src/video/transform.rs:91-93 | the lumas of every four-byte group change places, nothing else moves |
| Flips.ReverseGroups | host-rs/src/video/transform.rs:94-98 | the groups of a row are reversed, bytes within a group in order |
| Flips.MirrorRow | host-rs/src/video/transform.rs:81-101 | both together mirror one row's columns |
| Flips.TurnOver | host-rs/src/video/transform.rs:102-108 | the rows are exchanged top to bottom |
| Flips.Flip | host-rs/src/video/transform.rs:71-109 | the in-place loops give the flipped buffer for either layout and any axes |
| Flips.FlipsCompose | host-rs/src/video/transform.rs:71-109 | each flip is its own inverse, the axes commute, and together they are a half turn |
| Flips.PixelsMove | host-rs/src/video/transform.rs:90-107 | for even YUYV widths each pixel moves with its own luma and its chroma pair |
| Flips.RgbaPixelsMove | host-rs/src/video/transform.rs:82-107 | an RGBA pixel's four bytes move together, unchanged, to the mirrored column, row or both |
| Flips.PaddingStays | host-rs/src/video/transform.rs:80-82 | padding and everything past the last row stays |
| Flips.MirrorRowCpp | host/src/yuyv.cpp:19-29 | the C++ loops over pairs, and then over pairs and bytes, mirror one row |
| Flips.FlipHorizontalCpp | host/src/yuyv.cpp:9-32 | the C++ form refuses odd widths and short buffers untouched and otherwise gives the flipped buffer of the Rust form |
| Flips.FlipVerticalCpp | host/src/yuyv.cpp:34-49 | likewise top to bottom, by exchanging ranges row by row |
| Letterbox.FillBackground | host-rs/src/video/pixels.rs:112-124 | the fills leave the background everywhere |
| Letterbox.Compose | host-rs/src/video/pixels.rs:112-129 | every copy stays in bounds; the picture shows inside the rectangle and the background everywhere else |
| Letterbox.PictureIsPlaced | host-rs/src/video/pixels.rs:125-129 | each byte of the scaled picture shows at its offset from the rectangle's corner |
| Letterbox.FittedIsInside | host-rs/src/video/pixels.rs:97-97 | the computed rectangle is always inside the output |
| Letterbox.BackgroundIsBlack | host-rs/src/video/pixels.rs:112-124 | outside the rectangle a YUYV pixel is black always, an RGBA pixel exactly when its row starts on a multiple of four |
| Wire.HeaderRoundTrip | host-rs/src/wire.rs:477-544 | a header is encoded if and only if its length is allowed, and reads back unchanged |
| Wire.HeaderIsCanonical | host-rs/src/wire.rs:478-544 | an accepted header is the one encoding of what it says |
| Wire.ReadCapabilities | host-rs/src/wire.rs:140-173 | the decoding loop checks count and length before taking any mode |
| Wire.WriteCapabilities | host-rs/src/wire.rs:175-198 | the encoding loop computes the reference encoder |
| Wire.CapabilitiesRoundTrip | host-rs/src/wire.rs:137-199 | a list of at most 256 modes always fits and reads back unchanged |
| Wire.CapabilitiesAreCanonical | host-rs/src/wire.rs:137-199 | re-encoding an accepted list gives the same bytes if and only if its reserved bytes are zero |
| Wire.TranscriptIsInjective | host-rs/src/wire.rs:291-315 | no two claims that differ in transport, binding, nonce, key or label share a transcript |
| Wire.ChallengeRoundTrip | host-rs/src/wire.rs:324-352 | challenges round-trip in both directions |
| Wire.AuthRoundTrip | host-rs/src/wire.rs:362-403 | authorization proofs round-trip in both directions |
| Wire.AuthResultRoundTrip | host-rs/src/wire.rs:411-447 | authorization results round-trip in both directions |
| Wire.ReadPairing | host-rs/src/wire.rs:991-1023 | the decoding loop takes one to four addresses and the exact length |
| Wire.PairingIsInjective | host-rs/src/wire.rs:991-1023 | nothing in an accepted payload is ignored |
| Wire.PrepareRoundTrip | host-rs/src/wire.rs:201-225 | quality requests round-trip; an accepted payload is canonical if and only if its reserved bytes are zero |
| Wire.ResultRoundTrip | host-rs/src/wire.rs:227-253 | quality results likewise |
| Wire.EpochRoundTrip | host-rs/src/wire.rs:449-466 | epochs round-trip in both directions |
| Wire.HeaderAdmitsMessages | host-rs/src/wire.rs:502-524 | every payload one of the nine decoders accepts has a length the header check accepts; for requests, results and epochs exactly those |
| Wire.PairingLengths | host-rs/src/wire.rs:981-989 | the pairing length check accepts exactly the lengths the decoder can accept |
| WireLayout.HeaderLayout | host-rs/src/wire.rs:477-544 | the 24 bytes of a header, each field at its offset, low byte first, in both directions |
| WireLayout.HeaderRefusals | host-rs/src/wire.rs:478-500 | what is refused for its magic or version and what for its length |
| WireLayout.LengthsAre | host-rs/src/wire.rs:502-524 | the lengths each of the sixteen sized types may have, and any for the rest |
| WireLayout.CapabilitiesLayout | host-rs/src/wire.rs:137-173 | ten bytes and twelve for each mode, in both directions |
| WireLayout.QualityLayouts | host-rs/src/wire.rs:201-253 | requests, results and epochs, byte by byte, in both directions |
| WireLayout.ChallengeLayout | host-rs/src/wire.rs:324-341 | a challenge byte by byte, with the binding its transport demands |
| WireLayout.AuthLayout | host-rs/src/wire.rs:362-389 | a proof byte by byte |
| WireLayout.AuthResultLayout | host-rs/src/wire.rs:411-440 | an outcome byte by byte, and the combinations it may have |
| WireLayout.TranscriptLayout | host-rs/src/wire.rs:291-315 | the signed transcript: the domain text and every field at its place |
| WireLayout.PairingLayout | host-rs/src/wire.rs:991-1023 | pairing details byte by byte, and when they are accepted |
| Framing.Sender.WriteAll | host-rs/src/transport.rs:66-77 | short writes and interruptions deliver every byte in order, or a prefix and an error, and succeed exactly when calls make progress |
| Framing.Sender.Send | host-rs/src/transport.rs:63-82 | a valid frame goes out as header then payload, and the call succeeds if and only if every call makes progress and the flush and last deadline check pass; an invalid frame sends nothing |
| Framing.Receiver.ReadExact | host-rs/src/transport.rs:87-105 | short reads collect exactly the asked bytes in order, if and only if calls make progress and the last deadline check passes; otherwise an error and nothing skipped |
| Framing.Receiver.Receive | host-rs/src/transport.rs:50-57 | a received frame is valid and was the front of the input; a frame at the front is received when calls make progress and both deadline checks pass |
| Framing.Converse | host-rs/src/transport.rs:46-105 | a list of frames sent and received through arbitrary fragmentation arrives unchanged or an end reports an error, and neither end fails while its calls make progress in time, last checks included |
| Framing.SteadySocketsCarryFrames | host-rs/src/transport.rs:63-105 | a socket that never fails carries a frame, either way, within a call for every byte and one for each deadline look |
| Framing.StreamsAreUnambiguous | host-rs/src/transport.rs:50-82 | two lists of valid frames with the same bytes are the same list |
| ControlLines.Reader.Read | host-rs/src/control.rs:85-110 | a read depends on the bytes alone and not on how they were buffered |
| ControlLines.WrittenIsRead | host-rs/src/control.rs:85-123 | a message is written if and only if a reader takes its line, which is up to one byte under 16 KiB; then it comes back and the rest follows |
| ControlLines.UnfinishedLines | host-rs/src/control.rs:85-110 | bytes without a line feed are the end of the stream, a line cut short, or too many |
| ControlLines.ReadBack | host-rs/src/control.rs:85-123 | a written conversation is read back in order |
| UsbQueue.Queue.Take | host-rs/src/usb.rs:402-422 | queued bytes come first, the device is asked only when none are queued, and no byte is lost or repeated |
| UsbQueue.Queue.Drain | host-rs/src/usb.rs:396-424 | over any requests and transfers the bytes given plus the bytes pending are the transfers taken, in order |
| UsbQueue.Queue.Align | host-rs/src/usb.rs:343-363 | alignment keeps the first transfer that begins with a header whole and drops only transfers that do not |
| UsbSelection.SelectionFollowsThePhone | host-rs/src/usb.rs:452-490 | a selection is never dropped, moves to another port only after a loss and with a single suggestion, and is lost exactly when its phone is not there |
| UsbSelection.SelectionMoves | host-rs/src/usb.rs:452-490 | a phone that is there stays selected; otherwise what is on its port, then, once it was lost, the only suggested one; otherwise it is remembered as lost |
| UsbSelection.FirstPhoneIsAdopted | host-rs/src/usb.rs:452-490 | with nothing selected a phone is adopted if and only if it is the only suggested one and none was lost before |
| UsbSelection.ChoiceSettles | host-rs/src/usb.rs:452-490 | the same list a third time changes nothing |
| ClientAuth.ReceiveUntil | host-rs/src/client_auth.rs:188-201 | a frame is accepted only before the deadline and while not stopped |
| ClientAuth.RunExchange | host-rs/src/client_auth.rs:93-186 | the exchange's loop computes the reference exchange |
| ClientAuth.DecideTrace | host-rs/src/client_auth.rs:163-185 | after the proof, the frames received are exactly at most one pending answer and then the decision reported |
| ClientAuth.AuthorizedMeansProved | host-rs/src/client_auth.rs:93-186 | Authorized if and only if the trace is one challenge for this route, at most one pending answer and an authorization, with one proof signed over this route and that nonce |
| ClientAuth.RejectedMeansAnswered | host-rs/src/client_auth.rs:169-176 | a rejection is the phone's own, after the same proof |
| ClientAuth.ExchangeIsBounded | host-rs/src/client_auth.rs:101-182 | nothing is sent for a challenge of another route and never two proofs; the deadline is set at most twice, the second time for the one pending answer; no frame counts past both |
| ClientAuth.FirstFrameIsDelivered | host-rs/src/client_auth.rs:188-201 | the first frame in time is delivered; a stop, the deadline and a broken transport each end the wait as themselves |
| ClientAuth.TimelyAnswersDecide | host-rs/src/client_auth.rs:93-186 | an answerable challenge in time and an answer in time end the exchange in that answer |
| ClientAuth.PendingAnswersDecide | host-rs/src/client_auth.rs:163-185 | so they do after a pending answer, within a minute of it |
| ReconnectBound.ArmKeeps | host-rs/src/gui.rs:248-298 | deciding on a failure never leaves more dials owed than the retries and absences it counts |
| ReconnectBound.AttemptKeeps | host-rs/src/gui.rs:181-239 | an attempt from the timer or the launch is paid for by it, or by an absence it observes |
| ReconnectBound.ReturnKeeps | host-rs/src/gui.rs:1162-1185 | an attempt for a phone that is back is paid for by the wait that saw it leave |
| ReconnectBound.DialsAreBounded | host-rs/src/gui.rs:981-1185 | from every reachable window in which the dials owed fit, and it opens in one, automatic dials between resets never exceed one, plus eight, plus one per observed absence, as long as no change of transport leaves more owed than fits |
| ReconnectBound.OrderReturns | host-rs/src/gui.rs:993-1008 | whatever went before, the dials owed fit again once video is seen or Connect is pressed, and a Wi-Fi switch that finds nothing armed leaves them fitting |
| ReconnectPick.PickKeepsBound | host-rs/src/gui.rs:1245-1270 | after a pick by hand every careful continuation keeps the bound if and only if the dials then owed - by a timer, or over Wi-Fi by a wait with a device list on its way - still fit, or a Wi-Fi switch is about to reset the count |
| ReconnectPick.SwitchKeepsBound | host-rs/src/gui.rs:1117-1124 | when a Wi-Fi switch completes and its dial is under way or has failed in a way that can be retried, every careful continuation keeps the bound if and only if the dials owed after that frame fit |
| ReconnectPick.TooMuchOwedExceeds | host-rs/src/gui.rs:181-298 | whenever they do not fit, every owed dial and every retry left can be made, one event a frame, and the bound breaks |
| ReconnectScenes.PickingMeanwhileExceeds | host-rs/src/gui.rs:1245-1270 | a run from the opening window: two picks, no further press, more than nine dials |
| ReconnectScenes.LeftoverTimerMayFit | host-rs/src/gui.rs:1245-1270 | a run in which a pick leaves a timer running and every careful continuation still keeps the bound: the leftover alone decides nothing |
| ReconnectQuiet.DisconnectIsFinal | host-rs/src/gui.rs:1392-1428 | after the button is pressed while a session runs no automatic dial is ever made before Connect or the Wi-Fi switch is pressed, if and only if no Wi-Fi switch was pending at the press |
| ReconnectScenes.DisconnectMeetsSwitch | host-rs/src/gui.rs:1117-1124 | a run in which one was: Connect, video, the switch, Disconnect, and then a dial that nobody asked for |
| ReconnectWindow.Window.ArmRetryNow | host-rs/src/gui.rs:248-298 | after a failure something is armed if and only if the failure can be retried, the user has not disconnected, and the phone has to come back or a counted retry is left; it is a wait exactly in the first case |
| ReconnectWindow.Window.AutoConnectNow | host-rs/src/gui.rs:181-239 | one attempt is made if and only if no session runs and the transport allows it: a phone that is there, and has been away if a replug was asked for, or a pairing |
| ReconnectWindow.Window.PressNow | host-rs/src/gui.rs:1229-1428 | what is armed after each press: nothing after Disconnect, no wait, count or suppression after Connect, whatever was armed after a pick or a switch request |
| ReconnectWindow.Window.FrameNow | host-rs/src/gui.rs:981-1428 | a frame over the window's own fields keeps the dials owed fitting unless it changes the transport, makes them fit after video or Connect, and while they fit the bound holds |
| ReconnectProgress.LaunchDialsOverWifi | host-rs/src/gui.rs:1125-1135 | the first frame dials by itself exactly over paired Wi-Fi |
| ReconnectProgress.FailuresAreRetried | host-rs/src/gui.rs:248-298 | a failure that retrying can help is retried while fewer than eight retries were made: armed, and dialled when due |
| ReconnectProgress.RetriesEnd | host-rs/src/gui.rs:924-942 | the ninth is not made, nor any that cannot help or after Disconnect |
| ReconnectProgress.TimersDial | host-rs/src/gui.rs:1125-1135 | an armed retry is dialled once due and not before |
| ReconnectProgress.VideoRestoresTheBudget | host-rs/src/gui.rs:993-1008 | video restores the whole budget and disarms the timer |
| ReconnectProgress.PulledPhonesAreAwaited | host-rs/src/gui.rs:248-298 | a pulled phone is waited for without using up retries |
| ReconnectProgress.ReturnedPhonesAreDialled | host-rs/src/gui.rs:1162-1185 | and dialled by the first list that shows it again |
| ReconnectProgress.ButtonConnectsAndDisconnects | host-rs/src/gui.rs:1392-1428 | what the button does when nothing runs, when nothing can be connected, and when a session runs |
| Probe.ChallengesDiffer | host-rs/src/usb_probe.rs:181-186 | different sequence numbers carry different challenges |
| Probe.RepliesAreJudged | host-rs/src/usb_probe.rs:181-206 | the eight bytes of a challenge, and each verdict if and only if its own condition on type, number and payload holds |
| Probe.Await | host-rs/src/usb_probe.rs:472-499 | the first reply is taken, other frames are counted and passed over, a new challenge ends the wait |
| Probe.RunExchanges | host-rs/src/usb_probe.rs:452-519 | the loop computes the reference run; in it, sent equals echoed plus both mismatches plus timeouts, and a run cut short takes back its last request |
| Probe.EndToEnd | host-rs/src/usb_probe.rs:418-446 | the loop computes the reference gate; totals balance across at most eight re-authorizations, and the gate passes exactly when every exchange echoed |
| Probe.SoundPhonesPass | host-rs/src/usb_probe.rs:418-519 | a phone that echoes every challenge passes, with no new authorization and every time on record |
| Probe.SeamsAreBridged | host-rs/src/usb_probe.rs:418-446 | so does one that starts a new exchange in between and accepts the new proof |
| Probe.PercentilesInOrder | host-rs/src/usb_probe.rs:135-150 | the figures are the true extremes and in order; the average lies between them if and only if the 64-bit sum is no less than the least time taken that often |
| Probe.PercentilesAt | host-rs/src/usb_probe.rs:135-150 | the two percentiles by their index among the sorted times |
| Probe.AverageIsMean | host-rs/src/usb_probe.rs:142-145 | the average is the mean if and only if the sum fits 64 bits |
| Probe.WrappedAverage | host-rs/src/usb_probe.rs:142-145 | two times for which it is zero |

## Left out

- The video decoder, scaler, virtual camera sinks and the operating system's USB, socket, registry and key-protection calls: what they return is an input.
- TLS, certificate pinning, signatures, hashing and key generation: signing is an uninterpreted function, and a generated key is one not generated before.
- The `io_budget` frame reader behind `poll_receive` is not part of this model; frames are read through `receive_until`.
- Command-line parsing, log lines, labels, localisation, fonts, screenshots, packaging: text and user interface.
- Privileged helper processes (`pkexec`) and process spawning: a session is a source of lines that may end.
- Transform commands to a running worker, and the transform half of the mailbox beside the quality half.
- Failures of the parent's pipe while the worker writes a line: such a run is a prefix of a modelled one.
- `dial`'s walk over addresses: easy members only.
- BT.709 conversion and the floating-point aspect value: parameters; nothing proved depends on how they round.
- QualitySystem.EveryCommandIsAccountedFor: counts commands and verdicts of one session; the end of a session abandons what is in flight.
- PreviewSeqlock.ReadsAreNeverTorn: header and number writes are one step each and pixel bytes move one at a time in any order; fewer than 2^63 publishes by one producer.
- PreviewRecord.Producer.Publish: sizes are multiplied without wrapping; a frame whose sizes overflow 64 bits is not a frame the program builds.
- IdentityStore.StepKeeps: ownership and permission checks appear only as a call that fails; an unreadable, oversized or foreign file is one that holds no key.
- SettingsValues.Store.Save: the temporary file, its rename, the check that nobody else wrote meanwhile, permissions and the 1 MiB limit are not modelled, nor system-wide fallback files.
- Flips.Flip: rows that overlap (a row stride below the row's own bytes) are excluded; the sinks never report one, and the Rust loops do not check it.
- Wire.TranscriptIsInjective: which label bytes are acceptable text is a parameter; the Unicode tables are not part of this model.
- ReconnectBound.DialsAreBounded: time is abstract, an armed timer may fire in any later frame; backoff lengths are not modelled. A session may report any state in any frame, which is more than the worker does.
- ReconnectPick.PickKeepsBound: after USB has been left at most one more device list arrives, as the listing thread is then parked; which phone the list selects is the subject of `UsbSelection`.
- Probe.RunExchanges: pacing between requests is not modelled.
