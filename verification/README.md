# Camera adapters and spawner: a Dafny model

This project models the parts of the ROS 2 camera drivers that keep state across threads, and proves
what they guarantee over whole runs. Run `dafny verify dfyconfig.toml` in this directory to verify it.

| file | what it models |
|---|---|
| `OrbbecSnapshot.dfy` | the snapshot handshake: frame counters, wait, copy, unlocked log line, with any number of overlapping calls |
| `OrbbecParameters.dfy` | the adjust, check, commit, apply pipeline, from a parameter batch to an ordered log of device calls |
| `OrbbecCamera.dfy` | what a batch means for the camera's settings and for the adapter's own state |
| `OrbbecDriver.dfy` | what these calls do to the vendor's node over whole runs; ranges; recreations; time stamps |
| `OrbbecWhiteBalance.dfy` | the acknowledged copy of automatic white balance, with requests in flight |
| `OrbbecWatchdog.dfy` | the liveness timer: stall, one reboot, end of the node |
| `ZividCapture.dfy` | the capture mailbox with overlapping captures |
| `Yaml.dfy`, `ZividSettings.dfy` | the capture parameters and the settings document written from them |
| `Spawner.dfy`, `SpawnerRuns.dfy` | the reconciliation loop with threads that exit meanwhile, and its runs |
| `VendorSpawners.dfy` | the four vendors' `GetSerials` and `SpawnNodes` against what the spawner expects |
| `Recovery.dfy` | from the last frame of a Luxonis camera to the replacement of its node |
| `Ensenso.dfy` | the goal list for the camera's action server, and the paired CameraInfo cache |
| `LuxonisImage.dfy` | the BGR to RGB rewrite of a snapshot |

How the model is built:

- A class has the fields that the C++ object guards with one mutex. Each method's contract equates the
  new state with a function of the old one, and the lemmas are about that function.
- Threads are interleaved steps, one for each critical section, and one for each load and each read of
  the Orbbec log line, which runs without a lock. A run is a sequence of states and a sequence of
  events, every state following from the one before; the lemmas speak of every run.
- Where a method lets go of its mutex, it calls a method (`LetCallbacksRun`, `LetOthersRun`,
  `LetThreadsRun`, `LetUpdatesRun`, `LetCapturesRun`) that changes the state arbitrarily within what
  other threads may do.
- The Orbbec enable flags are ROS parameters. No mutex keeps them fixed while a critical section reads
  them one by one, so each step carries the values that it read, without restriction.
- The ROS node's part is assumed: a batch is adjusted, checked, committed and only then applied;
  parameters have their declared types; of two entries with one name the later is committed. White
  balance replies are not delivered within one Orbbec batch in `OrbbecParameters.dfy`; in
  `OrbbecWhiteBalance.dfy` they may come between any two entries.
- `double` is `real`, counters of type `uint64_t` wrap at 2^64, and the Luxonis buffer size is computed
  modulo 2^32. Clocks, scans, device answers and what a vendor's library returns are parameters.

What the proofs show about the code beyond its own description:

- An Orbbec snapshot is fresh by arrival: each image came after the call recorded its counters. The log
  line after the copy uses the color and the left IR image whether or not these streams are enabled, and
  without the lock: it can follow a null pointer (`ColorOnlySnapshotCrashes`) or one to an image that a
  callback has freed (`FrameFreesLoggedImage`); `LogReadFaultsIff` and `LogLineEndsIff` give the exact
  conditions, and no state after a copy rules a fault out (`NoAnswerIsSafe`).
- Switching Orbbec streaming on does not reset the watchdog times, so that the next tick can ask for a
  reboot (`QuietAfterStreamingOnIff`, `StreamingOnMayFireAtOnce`).
- An Orbbec stream toggled on after the driver's creation has no frame rate set (`RunningRateIff`,
  `ToggledStreamHasNoRate`).
- The white-balance protection holds for one outstanding request without lost success replies and for
  nothing more (`ProtectionNeedsOneAtATime`). It also drops disables that the user wants: after a
  re-creation all of them until an enable is sent (`DisableIsNotRepeated`), and one that is posted while an enable is outstanding
  (`DisableDuringEnableIsLost`). `DeviceHasLastValueIff` says when the device does what was posted last,
  and `ValueMeetsAutomaticIff` when a white balance value comes while the device is in automatic mode.
- A Zivid capture delivers every message at most once, but its messages can be older than the call and
  from different shots, although the header speaks of a single, synchronized response
  (`FullMailboxAnswersAtOnce`, `MixedCapture`). `FreshIffSlotEmpty`, `SameShotIff` and
  `NothingAssuresOneShot` say what a call can rely on.
- The Zivid callback tests for `settings_file_path`, which the node never declares; the model keeps the
  branch.
- An Ensenso batch that is refused, or whose goal the camera does not accept, is remembered and not
  applied, and in the second case the caller is told that it succeeded (`StaysInStepIff`, `AgreeOnIff`).
- The Luxonis buffer is sized with the width where the height belongs: the rewrite stays inside it
  exactly for images that are not higher than wide (`InBoundsIff`, `TallImageOverruns`). The node asks for
  images of 1280 by 800 pixels (flowstate_luxonis/src/adapter_node.cc:53-54), which fit; an overrun needs
  another configuration.
- A scan that names a camera twice makes the Zivid spawner build two nodes for it
  (`DoubleScanSpawnsTwice`).
- A clear takes the nodes out of the list under the lock and joins their threads without it. An update in
  between can start a second node for a camera whose first one still runs (`ClearLetsTwoRun`,
  `SecondAdapterIff`). The code's one clear stands in the Zivid spawner's destructor.
- Removing a node joins its thread without cancelling its executor. `Threads.Join` returns only once the
  thread has ended; for a node that is unplugged and still spinning nothing in the spawner makes it end.

## Model

| member | source | states |
|---|---|---|
| OrbbecSnapshot.FrameStore.OnImage | flowstate_orbbec/src/adapter_node.cc:95-143 | a frame callback stores the image and advances its counter modulo 2^64; slot and counter keep saying which image arrived last and how many arrived |
| OrbbecSnapshot.FrameStore.OnCameraInfo | flowstate_orbbec/src/adapter_node.cc:62-93 | an info callback latches the CameraInfo and leaves frames alone |
| OrbbecSnapshot.FrameStore.AllNewFramesArrived | flowstate_orbbec/src/adapter_node.cc:655-687 | the wait condition, by name: color, left IR and right IR, if read as enabled, need their own CameraInfo and a counter that differs from its target; depth needs color's CameraInfo and its own counter |
| OrbbecSnapshot.NewFrameByName | flowstate_orbbec/src/adapter_node.cc:655-687 | the same for the condition that the runs use |
| OrbbecSnapshot.FrameStore.CopyLatest | flowstate_orbbec/src/adapter_node.cc:705-785 | the copy phase with its early error returns computes CopyReply; it succeeds iff each enabled stream has its image and its CameraInfo, for depth color's; every entry has the stream's image and that CameraInfo |
| OrbbecSnapshot.RepliesAreRegistered | flowstate_orbbec/src/adapter_node.cc:705-785 | in every reply a depth image comes with color's CameraInfo, every other image with its own, and each with its own stored image |
| OrbbecSnapshot.AvailableByName | flowstate_orbbec/src/adapter_node.cc:705-757 | what each stream needs to be copied, by name |
| OrbbecSnapshot.CopyReplyMeaning | flowstate_orbbec/src/adapter_node.cc:705-785 | a reply shows exactly the enabled streams, in order, each with its own stored image and the CameraInfo it is registered to; an error names the first enabled stream that lacks one |
| OrbbecSnapshot.CopyFailsIff | flowstate_orbbec/src/adapter_node.cc:705-757 | the copy fails iff an enabled stream lacks its image or its CameraInfo |
| OrbbecSnapshot.FrameStore.Await | flowstate_orbbec/src/adapter_node.cc:653-693 | the wait, with callbacks running in it, ends well only if each stream enabled at it got its CameraInfo and a frame after the targets were recorded, and by its deadline only if one got nothing new |
| OrbbecSnapshot.FrameStore.CopyUnderLock | flowstate_orbbec/src/adapter_node.cc:704-785 | callbacks between wait and copy cannot make the copy fail for a stream the wait was for, and what is copied of it is one of the frames that came after the targets were recorded |
| OrbbecSnapshot.FrameStore.BuildSnapshotResponse | flowstate_orbbec/src/adapter_node.cc:630-785 | one whole call with callbacks running in every unlocked gap: the reply is CopyReply of the state at the copy; each image of a stream enabled at the wait arrived after the targets were recorded; no copy error unless a stream was switched on since; a deadline error only if a stream got nothing new |
| OrbbecSnapshot.SlotHoldsLastArrival | flowstate_orbbec/src/adapter_node.cc:95-143 | in every run a slot holds the image of the latest arrival on its stream, and is empty iff none arrived |
| OrbbecSnapshot.SlotHoldsLastInfo | flowstate_orbbec/src/adapter_node.cc:62-93 | in every run an info slot holds the last CameraInfo that came on that very stream, and is empty iff none came |
| OrbbecSnapshot.SnapshotIsFresh | flowstate_orbbec/src/adapter_node.cc:634-785 | in every interleaving of any number of calls, callbacks and flag values, a waiting call's images on streams enabled at wait and copy are the newest and arrived strictly between recording the targets and the copy; the copy fails only for a stream not enabled at the wait |
| OrbbecSnapshot.WakesIffFramesArrived | flowstate_orbbec/src/adapter_node.cc:639-693 | no lost wake-up: a recorded call may go on iff each enabled stream has its CameraInfo and got a number of frames since then that is not a multiple of 2^64 |
| OrbbecSnapshot.WakeConditionIsStable | flowstate_orbbec/src/adapter_node.cc:655-693 | once true, the condition stays true unless a stream is newly enabled or 2^64 frames arrive in one wait |
| OrbbecSnapshot.WokenStreamIsAvailable | flowstate_orbbec/src/adapter_node.cc:688-757 | after a successful wait the image and CameraInfo of each stream enabled at the wait are there at every later copy |
| OrbbecSnapshot.LogReadFaultsIff | flowstate_orbbec/src/adapter_node.cc:786-788 | the log line runs without the lock: a read is safe iff an image of its stream had arrived before the pointer was loaded and none arrived until the read; otherwise it follows a null pointer, or one to an image freed meanwhile, each with its exact condition |
| OrbbecSnapshot.LogLineEndsIff | flowstate_orbbec/src/adapter_node.cc:786-788 | at every moment of every run: a call has faulted iff one of its two reads was not safe, and got through the line iff both images were read safely |
| OrbbecSnapshot.NoAnswerIsSafe | flowstate_orbbec/src/adapter_node.cc:786-788 | from every state after a successful copy, a load, a frame and the read lead to a fault, for either image |
| OrbbecSnapshot.WaitedStreamIsNotNull | flowstate_orbbec/src/adapter_node.cc:655-788 | a stream enabled at the wait is never read through a null pointer |
| OrbbecSnapshot.FrameFreesLoggedImage | flowstate_orbbec/src/adapter_node.cc:95-143 | a concrete run: color and left IR enabled, everything arrived and copied, and a color frame frees the image that the log line reads |
| OrbbecSnapshot.ColorOnlySnapshotCrashes | flowstate_orbbec/src/adapter_node.cc:709-788 | a concrete run: only color enabled, color info and image arrive, the copy succeeds, and the log line follows the null left IR pointer |
| OrbbecParameters.Batch.PreSet | flowstate_orbbec/src/adapter_node.cc:314-354 | the in-place insertions yield Adjusted of the batch |
| OrbbecParameters.AdjustingIsIdempotent | flowstate_orbbec/src/adapter_node.cc:314-354 | adjusting twice is adjusting once, and the user's batch stays a suffix behind entries that only switch automatic modes off |
| OrbbecParameters.AdjustedNames | flowstate_orbbec/src/adapter_node.cc:325-353 | after adjusting, an automatic mode is named iff the user named it, or named a value that needs it off |
| OrbbecParameters.InsertionsByName | flowstate_orbbec/src/adapter_node.cc:314-354 | the adjusted batch, on the user's entries: an auto exposure off is inserted iff exposure or gain is set and auto exposure is not, and before it an automatic white balance off iff white balance is set and its automatic mode is not |
| OrbbecParameters.NamesByName | flowstate_orbbec/src/adapter_node.cc:316-347 | each name that the callback looks for belongs to exactly one kind of entry |
| OrbbecParameters.UnrelatedBatchLeavesModes | flowstate_orbbec/src/adapter_node.cc:314-354 | a batch without exposure, gain and auto exposure makes no call on auto exposure; one without white balance and its automatic mode none on that |
| OrbbecParameters.CheckParameters | flowstate_orbbec/src/adapter_node.cc:356-390 | accepted iff every exposure is in 0.0001..0.1, white balance in 2800..6500, gain in 0..128 and frame rate one of 5, 10, 15, 30; otherwise the reason is that of the first entry out of range |
| OrbbecParameters.OrbbecAdapter.constructor | flowstate_orbbec/src/adapter_node.cc:41-53 | construction creates the driver once, with all streams and the laser on, 10 frames per second and registration |
| OrbbecParameters.OrbbecAdapter.CreateOrbbecNode | flowstate_orbbec/src/adapter_node.cc:879-983 | a driver is created with the committed switches and laser, the frame rate for exactly the enabled streams, and registration iff depth and color are enabled |
| OrbbecParameters.OptionsByName | flowstate_orbbec/src/adapter_node.cc:879-983 | the same for the options that the runs use |
| OrbbecParameters.OrbbecAdapter.ApplyFps | flowstate_orbbec/src/adapter_node.cc:400-420 | the loop over frame rates stores the last one and recreates the driver at each change |
| OrbbecParameters.OrbbecAdapter.ApplyOther | flowstate_orbbec/src/adapter_node.cc:440-491 | what one other entry calls, with toggles skipped after a reset and a disable of white balance sent only when believed on |
| OrbbecParameters.OrbbecAdapter.PostSetParameters | flowstate_orbbec/src/adapter_node.cc:394-493 | both passes over the batch, in order, on the whole state |
| OrbbecParameters.OrbbecAdapter.SetParameters | flowstate_orbbec/src/adapter_node.cc:197-204 | a batch through all callbacks is one step of a run; a refused one leaves the adapter as it was |
| OrbbecParameters.CallsFollowTheBatch | flowstate_orbbec/src/adapter_node.cc:422-492 | the calls of an entry stand between those of the entries before and behind it |
| OrbbecCamera.CameraHasLastValue | flowstate_orbbec/src/adapter_node.cc:440-460 | after an accepted batch the camera's exposure, auto exposure, gain and white balance, if the adjusted batch names them, have the value of their last entry, exposure truncated to units of 0.1 ms |
| OrbbecCamera.CameraKeepsTheRest | flowstate_orbbec/src/adapter_node.cc:440-460 | and those that it does not name stay |
| OrbbecCamera.EntryOnCamera | flowstate_orbbec/src/adapter_node.cc:440-460 | one entry sends its own value and touches no other setting |
| OrbbecCamera.ManualSettingHolds | flowstate_orbbec/src/adapter_node.cc:325-333 | a batch that sets exposure or gain and not auto exposure leaves the camera with auto exposure off |
| OrbbecCamera.AdapterHasLastValue | flowstate_orbbec/src/adapter_node.cc:402-491 | fps_, streaming_, the four committed switches and the laser have the value of their last entry |
| OrbbecCamera.AdapterKeepsTheRest | flowstate_orbbec/src/adapter_node.cc:402-491 | and those that the batch does not name stay, as does the white-balance shadow |
| OrbbecCamera.OneTriggerPerSwitch | flowstate_orbbec/src/adapter_node.cc:479-490 | a batch triggers once for each entry that switches streaming on |
| OrbbecParameters.AutoExposureOffComesFirst | flowstate_orbbec/src/adapter_node.cc:316-333 | exposure or gain without auto_exposure: the disable is sent before every exposure and gain call, and no enable is sent |
| OrbbecParameters.AutoWhiteBalanceOffComesFirst | flowstate_orbbec/src/adapter_node.cc:335-353 | the same for white balance, where the disable is sent iff the shadow says it is on |
| OrbbecDriver.DriverFollowsParameters | flowstate_orbbec/src/adapter_node.cc:394-476 | after every run of batches, with or without changes of the frame rate, the driver's four switches and its laser are the committed ones |
| OrbbecDriver.FpsPassCreates | flowstate_orbbec/src/adapter_node.cc:401-420 | several changes of the rate in one batch leave a driver as if created once with the last rate |
| OrbbecDriver.RunningRateIff | flowstate_orbbec/src/adapter_node.cc:904-961 | an enabled stream runs with the rate that a re-creation would give it iff it was enabled at construction or by the last accepted batch that changed the rate; otherwise with none |
| OrbbecDriver.ToggledStreamHasNoRate | flowstate_orbbec/src/adapter_node.cc:461-476 | a concrete run: depth off, another rate, depth on again, and depth runs without a rate |
| OrbbecDriver.OneRecreationPerChange | flowstate_orbbec/src/adapter_node.cc:400-420 | as many recreations as there are positions where the sequence of rates changes; fps_ ends at its last element |
| OrbbecDriver.RecreationsComeFirst | flowstate_orbbec/src/adapter_node.cc:394-476 | before a re-creation a batch makes no other call, and a batch that re-creates the driver toggles nothing |
| OrbbecDriver.BatchIsStamped | flowstate_orbbec/src/adapter_node.cc:409-476 | every toggle directly follows the reset of its stream's watchdog time, every re-creation the reset of all four |
| OrbbecDriver.EverythingSentIsInRange | flowstate_orbbec/src/adapter_node.cc:356-460 | over all runs: gain 0..128, white balance 2800..6500, exposure 1..1000 units, frame rates 5, 10, 15 or 30, for every call ever made and for fps_ |
| OrbbecDriver.ExposureUnits | flowstate_orbbec/src/adapter_node.cc:442-444 | seconds to units is monotone, within 1..1000, and loses less than one unit |
| OrbbecDriver.RejectedBatchSendsNothing | flowstate_orbbec/src/adapter_node.cc:356-390 | a batch is refused iff one of the user's own entries is out of range, and then nothing changes and nothing is sent |
| OrbbecWhiteBalance.ShadowIsLastSuccess | flowstate_orbbec/include/flowstate_orbbec/adapter_node.h:84-120 | in every run the shadow is the value of the last delivered success, true before the first |
| OrbbecWhiteBalance.SendsWhen | flowstate_orbbec/src/adapter_node.cc:447-456 | an entry sends one request with its own value iff it enables or the shadow is on, and otherwise none |
| OrbbecWhiteBalance.OneAtATimeNeverRedisables | flowstate_orbbec/src/adapter_node.cc:447-456 | with one request at a time and no success reply lost, no disable reaches a device that is disabled, re-creations included |
| OrbbecWhiteBalance.ProtectionNeedsOneAtATime | flowstate_orbbec/src/adapter_node.cc:447-456 | over all runs with at most n outstanding requests, with or without lost success replies: the protection holds iff n is 1 and no success reply is lost, or n is 0 |
| OrbbecWhiteBalance.LostReplyRedisables | flowstate_orbbec/include/flowstate_orbbec/adapter_node.h:107-112 | a run with one outstanding request in which a lost success reply leads to a second disable |
| OrbbecWhiteBalance.TwoAtATimeRedisables | flowstate_orbbec/src/adapter_node.cc:447-456 | a run with two outstanding requests in which a second disable is on its way before the reply to the first |
| OrbbecWhiteBalance.ShadowMatchesDevice | flowstate_orbbec/src/adapter_node.cc:447-456 | without re-creation, shadow and device agree whenever nothing is outstanding |
| OrbbecWhiteBalance.DisableIsNotRepeated | flowstate_orbbec/src/adapter_node.cc:448-456 | once the shadow says off, the device is automatic and nothing is outstanding, no disable is sent and the device stays automatic, over all runs until the user posts an enable |
| OrbbecWhiteBalance.RecreationLeavesStuck | flowstate_orbbec/src/adapter_node.cc:448-456 | a run that gets there: an acknowledged disable, then a re-creation |
| OrbbecWhiteBalance.DeviceHasLastValueIff | flowstate_orbbec/src/adapter_node.cc:447-456 | one request at a time, all succeeding and acknowledged: whenever nothing is outstanding, the device has the value posted last iff that is true, or it was posted while nothing was outstanding and no re-creation came after the last served request |
| OrbbecWhiteBalance.DisableDuringEnableIsLost | flowstate_orbbec/src/adapter_node.cc:452-456 | a run without re-creation: a disable posted while an enable is outstanding is dropped and the device ends automatic |
| OrbbecWhiteBalance.ValueMeetsAutomaticIff | flowstate_orbbec/src/adapter_node.cc:447-458 | one request at a time, all succeeding and acknowledged, a disable posted last: a white balance value meets a device in automatic mode iff the driver was re-created since the last served request, or the disable was sent and is not served yet, or it was dropped and the enable before it is served |
| OrbbecWhiteBalance.StuckWastesValues | flowstate_orbbec/src/adapter_node.cc:447-458 | once the shadow says off, the device is automatic and nothing is outstanding, every value meets automatic mode until the user posts an enable |
| OrbbecWhiteBalance.RecreationWastesValue | flowstate_orbbec/src/adapter_node.cc:447-458 | a concrete run: a re-creation, then a white balance set by the user, whose disable is not sent and whose value meets automatic mode |
| OrbbecWatchdog.LivenessTimer.OnTick | flowstate_orbbec/src/adapter_node.cc:507-572 | the timer's callback: tests, new stamps, reboot on the first firing, cancel on later ones |
| OrbbecWatchdog.LivenessTimer.Touch | flowstate_orbbec/src/adapter_node.cc:461-476 | a frame or a toggle resets one stream's stamp only |
| OrbbecWatchdog.LivenessTimer.TouchAll | flowstate_orbbec/src/adapter_node.cc:409-415 | a change of the frame rate resets all stamps |
| OrbbecWatchdog.AtMostOneReboot | flowstate_orbbec/src/adapter_node.cc:547-570 | one reboot request from the first firing on, cancelled iff fired at least twice |
| OrbbecWatchdog.FiresIff | flowstate_orbbec/src/adapter_node.cc:510-537 | a tick fires iff streaming is on and some enabled stream had no frame and no other reset of its time for more than 30 s, nor started within them |
| OrbbecWatchdog.TickIsQuietIff | flowstate_orbbec/src/adapter_node.cc:510-570 | a tick changes nothing while streaming is off or no enabled stamp is older than 30 s; otherwise it renews all four stamps and asks for a reboot, the first time, or cancels |
| OrbbecWatchdog.FiringsAreFarApart | flowstate_orbbec/src/adapter_node.cc:539-546 | more than 30 s lie between any two firings |
| OrbbecWatchdog.SilentStreamEndsNode | flowstate_orbbec/src/adapter_node.cc:506-572 | with a tick each second until the node ends, a silent enabled stream under streaming ends it within 62 s, whatever the others do |
| OrbbecWatchdog.QuietAfterStreamingOnIff | flowstate_orbbec/src/adapter_node.cc:479-537 | after streaming is switched on, no tick within d seconds fires in any continuation that leaves the enable flags alone iff no enabled stream's stamp is older than 30 s at the end of that time |
| OrbbecWatchdog.StreamingOnMayFireAtOnce | flowstate_orbbec/src/adapter_node.cc:479-490 | a concrete run: 31 s without streaming, then on, and the first tick half a second later asks for a reboot |
| ZividCapture.CaptureSlots.OnColor | flowstate_zivid/src/adapter_node.cc:79-87 | image and CameraInfo are stored together |
| ZividCapture.CaptureSlots.TakeOrReport | flowstate_zivid/src/adapter_node.cc:311-335 | the locked part: with everything there, all three payloads are taken and the info kept; otherwise nothing is and the error lists exactly what is missing |
| ZividCapture.CaptureSlots.Capture | flowstate_zivid/src/adapter_node.cc:281-336 | each early error iff its cause; otherwise all or nothing on the mailbox found when the wait ended, with callbacks and other captures running before; the info is never missing without the color image |
| ZividCapture.CaptureSlots.Describe | flowstate_zivid/src/adapter_node.cc:338-369 | returns the cached CameraInfo; with one cached it cannot fail, so once one describe succeeded no later one fails, whatever other calls take |
| ZividCapture.EveryMessageOnce | flowstate_zivid/src/adapter_node.cc:79-102 | in every run, per kind: received = delivered + overwritten + in the slot; delivered numbers strictly increase; a delivered or stored color image has the info of its own callback |
| ZividCapture.AllOrNothing | flowstate_zivid/src/adapter_node.cc:311-335 | a slot is emptied only by a capture that takes and returns all three; failing calls change no slot |
| ZividCapture.SameShotIff | flowstate_zivid/src/adapter_node.cc:290-322 | when a call begins: whatever follows, with at most one message of each kind before its capture, it gets one shot iff equally many of each kind had come and all three slots are empty |
| ZividCapture.NothingAssuresOneShot | flowstate_zivid/src/adapter_node.cc:290-322 | without the bound on messages, every reachable state with a waiting call can go on so that it gets a mixed capture |
| ZividCapture.MixedCapture | flowstate_zivid/src/adapter_node.cc:311-322 | a concrete run that delivers color 2 with depth 1 and normals 1 |
| ZividCapture.FreshIffSlotEmpty | flowstate_zivid/src/adapter_node.cc:290-322 | when a call begins, and for each of the three kinds: whatever follows, the message it gets came after that iff the kind's slot is empty |
| ZividCapture.FreshIffArrivedSince | flowstate_zivid/src/adapter_node.cc:311-322 | in a given run the returned message of a kind came after the call began iff any of that kind did |
| ZividCapture.FullMailboxAnswersAtOnce | flowstate_zivid/src/adapter_node.cc:290-322 | a concrete run: the mailbox is full when the call begins, and the call returns at once what had come before |
| Yaml.ParseEmitted | flowstate_zivid/src/adapter_node.cc:221-255 | for every tree, reading the emitter's events gives the tree back, whatever follows |
| Yaml.EmitIsInjective | flowstate_zivid/src/adapter_node.cc:221-255 | different trees have different event streams |
| ZividSettings.GenerateZividSettings | flowstate_zivid/src/adapter_node.cc:217-256 | the events written one by one are those of the settings tree |
| ZividSettings.DocumentRoundTrip | flowstate_zivid/src/adapter_node.cc:217-256 | reading the document, each parameter under its path, gives back the parameters |
| ZividSettings.DocumentVersion | flowstate_zivid/src/adapter_node.cc:224-227 | the document says serializer 1 and data 22 |
| ZividSettings.LastWriterWins | flowstate_zivid/src/adapter_node.cc:154-203 | a field gets the value of the last entry under any of its names |
| ZividSettings.UnnamedFieldStays | flowstate_zivid/src/adapter_node.cc:154-203 | a field that no entry names keeps its value |
| ZividSettings.FieldNames | flowstate_zivid/src/adapter_node.cc:160-191 | the names of each part of the record, and no other name, stand for it |
| ZividSettings.WholeSettingsNames | flowstate_zivid/src/adapter_node.cc:145-149 | the two names that replace the settings as a whole |
| ZividSettings.EntrySetsByName | flowstate_zivid/src/adapter_node.cc:160-191 | an entry under one of these names sets that part of the record and no other |
| ZividSettings.FoldOfConcatenation | flowstate_zivid/src/adapter_node.cc:154-203 | two batches in a row equal their concatenation |
| ZividSettings.SettingsKeeper.constructor | flowstate_zivid/src/adapter_node.cc:68-72 | the boot defaults are sent at construction |
| ZividSettings.SettingsKeeper.SetOne | flowstate_zivid/src/adapter_node.cc:154-205 | one entry is stored in the field that any of its names stands for, or handed on to the camera node |
| ZividSettings.SettingsKeeper.SetParameters | flowstate_zivid/src/adapter_node.cc:141-215 | the record after the batch, and everything sent for it in order |
| ZividSettings.BroughtSettingsStay | flowstate_zivid/src/adapter_node.cc:145-212 | if a batch brings non-empty settings_yaml or settings_file_path, nothing is generated and the last whole settings that it names are in force |
| ZividSettings.GeneratedDocument | flowstate_zivid/src/adapter_node.cc:145-212 | a batch ends with one generated document of the new record iff it sets an individual parameter and brings no settings, and sends no other |
| ZividSettings.HandedOnAt | flowstate_zivid/src/adapter_node.cc:192-205 | an entry is handed on, in its place in the batch, iff it names no individual parameter |
| ZividSettings.AgreementAfterBatch | flowstate_zivid/src/adapter_node.cc:145-212 | for any reading of texts and files: camera and record agree after a batch iff it changed individual parameters and brought no settings of its own, or the last whole settings that it named say what the record says, or it touched neither and they agreed before |
| ZividSettings.RunsAgree | flowstate_zivid/src/adapter_node.cc:68-215 | in every run without settings_yaml and settings_file_path the last settings sent encode the record, which is the fold of all entries |
| Spawner.BaseSpawner.IsAlreadySpawned | flowstate_common/src/base_spawner_node.cc:66-74 | true iff a non-null node has the serial |
| Spawner.BaseSpawner.Discover | flowstate_common/src/base_spawner_node.cc:36-52 | the serials of all nodes, in order |
| Spawner.BaseSpawner.CleanupDeadNodes | flowstate_common/src/base_spawner_node.cc:76-105 | the in-place erase loop, with threads exiting during it, leaves the survivors; whoever had exited at its start is gone, and whoever is gone has an ended thread |
| Spawner.BaseSpawner.UpdateCameras | flowstate_common/src/base_spawner_node.cc:107-128 | cleanup, request, spawn and adopt, for any SpawnNodes |
| Spawner.BaseSpawner.SerialsToSpawn | flowstate_common/src/base_spawner_node.cc:114-118 | the loop yields the scanned serials without a node |
| Spawner.BaseSpawner.Adopt | flowstate_common/src/base_spawner_node.cc:120-127 | the non-null new nodes join the list behind the others, in order |
| Spawner.BaseSpawner.Detach | flowstate_common/include/flowstate_common/base_spawner_node.h:96-99 | the locked part of a clear: the list is empty and its nodes are handed over |
| Spawner.BaseSpawner.ClearSpawnedNodes | flowstate_common/include/flowstate_common/base_spawner_node.h:93-101 | with updates running between the joins, every node found has an ended thread on return; the list need not be empty |
| Spawner.Threads.Join | flowstate_common/src/base_adapter_node.cc:65-69 | the destructor of a node's base class returns only once the thread has ended, and ended threads stay ended |
| Spawner.SurvivorPositions | flowstate_common/src/base_spawner_node.cc:76-105 | cleanup is an order-preserving filter: exactly the positions that were live when looked at and plugged in |
| Spawner.MissingMeaning | flowstate_common/src/base_spawner_node.cc:114-118 | the request is exactly the scanned serials without a node, without doubles if the scan has none |
| Spawner.MissingAt | flowstate_common/src/base_spawner_node.cc:114-118 | each scanned serial is requested, in its place and as often as scanned, iff it has no node |
| Spawner.UpdateStaysDistinct | flowstate_common/src/base_spawner_node.cc:107-128 | one update, with any scan and any exits, keeps serials distinct and adds no null, if SpawnNodes meets its contract |
| Spawner.UpdateConverges | flowstate_common/src/base_spawner_node.cc:107-128 | with full spawn success exactly the scanned serials have a node |
| Spawner.UpdateIsIdempotent | flowstate_common/src/base_spawner_node.cc:107-128 | a repeat with the same scan and no exits removes, requests and changes nothing |
| Spawner.ExitedNodeIsReplaced | flowstate_common/src/base_spawner_node.cc:82-118 | an exited node of a connected camera is removed and its camera requested in the same update |
| SpawnerRuns.InvHolds | flowstate_common/src/base_spawner_node.cc:66-127 | in every run with overlapping updates, old scans, exits and clears whose joins come after the lock was let go: no null, no serial twice, and every running thread belongs to a node held or to one that a clear has yet to destroy |
| SpawnerRuns.NodesOutliveTheirThreads | flowstate_common/src/base_adapter_node.cc:65-79 | a node leaves the list by an update, and then its thread has ended, or by a clear, which keeps it until its thread has ended |
| SpawnerRuns.OneAdapterPerCamera | flowstate_common/src/base_spawner_node.cc:107-128 | no camera ever has two nodes with running threads, as long as no update gets a scan that names a camera whose node a clear still waits for |
| SpawnerRuns.SecondAdapterIff | flowstate_common/include/flowstate_common/base_spawner_node.h:93-101 | an update can start a second node for a camera whose first one still runs iff its scan names a camera whose node a clear has taken out and whose thread has not ended |
| SpawnerRuns.ClearLetsTwoRun | flowstate_common/include/flowstate_common/base_spawner_node.h:93-101 | a concrete run in which two nodes for one camera run |
| SpawnerRuns.UpdateLeavesNoDeadNode | flowstate_common/src/base_spawner_node.cc:76-127 | after an update no node is left whose thread had ended before it or whose camera is not in the scan |
| VendorSpawners.OrbbecGetSerials | flowstate_orbbec/src/spawner_node.cc:37-48 | exactly the devices on Ethernet, each as often as listed and in list order |
| VendorSpawners.SpawnListed | flowstate_orbbec/src/spawner_node.cc:50-75 | nodes for the listed devices that were asked for; the contract holds iff no requested serial is listed twice |
| VendorSpawners.WantedAt | flowstate_orbbec/src/spawner_node.cc:62-74 | each device of the list gets a node, in its place and as often as listed, iff it was asked for |
| VendorSpawners.EnsensoGetSerials | flowstate_ensenso/src/spawner_node.cc:35-54 | the names read up to the first failure, in order and each as often as it stands there, without the two that are no cameras |
| VendorSpawners.EnsensoSpawnNodes | flowstate_ensenso/src/spawner_node.cc:56-83 | in any order of the set, nodes for exactly the available ones; the contract always holds |
| VendorSpawners.ZividSpawnNodes | flowstate_zivid/src/spawner_node.cc:63-84 | nodes for the requests that can be built; the contract holds iff none of them is asked for twice |
| VendorSpawners.DistinctScanIsEnough | flowstate_common/src/base_spawner_node.cc:114-121 | a scan without doubles makes Zivid meet the contract whatever fails |
| VendorSpawners.DoubleScanSpawnsTwice | flowstate_common/src/base_spawner_node.cc:114-126 | a new camera that a scan names twice gets two Zivid nodes |
| VendorSpawners.VendorRunsAreSafe | flowstate_common/src/base_spawner_node.cc:107-128 | the run invariant holds with each vendor's own SpawnNodes: Zivid's for scans without doubles, Orbbec's and Luxonis's for device lists without doubles, Ensenso's always |
| Recovery.StampIsLastFrame | flowstate_luxonis/src/adapter_node.cc:68-76 | in every run the stamp of a running node is the time of its latest frame, or of its start |
| Recovery.EndsIff | flowstate_luxonis/src/adapter_node.cc:89-104 | a tick ends a running node iff neither start nor any frame lies within the last 30 s |
| Recovery.EndsWithin31 | flowstate_luxonis/src/adapter_node.cc:89-104 | with a tick each second a silent camera's node ends more than 30 and at most 31 s after its last frame |
| Recovery.RunningNodeStays | flowstate_common/src/base_spawner_node.cc:76-105 | no update removes the running node of a connected camera |
| Recovery.SilentCameraIsReplaced | flowstate_common/src/base_spawner_node.cc:54-128 | end to end: given up within 31 s of the last frame, removed and requested again within 20 s more, and never removed before |
| Ensenso.EnsensoAdapter.SetParameters | flowstate_ensenso/src/adapter_node.cc:63-123 | the record after the batch even when refused; refused iff there is something to send and the server is not ready; one goal sent otherwise |
| Ensenso.GoalSetsLastValue | flowstate_ensenso/src/adapter_node.cc:72-108 | the goal, run from left to right on any camera, leaves each named setting at its last value with its automatic mode off, as in the record |
| Ensenso.GoalLeavesTheRest | flowstate_ensenso/src/adapter_node.cc:86-108 | settings and automatic modes that the batch does not name stay, in camera and record |
| Ensenso.LastSettingByName | flowstate_ensenso/src/adapter_node.cc:72-108 | by name: the last exposure, gain, gamma and projector entry of a batch give camera and record their value, the first two with the automatic mode off |
| Ensenso.UnnamedByName | flowstate_ensenso/src/adapter_node.cc:72-108 | by name: what the batch does not set stays, in camera and record, with its automatic mode |
| Ensenso.OffRightBefore | flowstate_ensenso/src/adapter_node.cc:73-91 | in a goal each exposure and gain value stands right behind the entry that switches its automatic mode off |
| Ensenso.NothingToSendIff | flowstate_ensenso/src/adapter_node.cc:72-110 | a goal is empty iff the batch names no camera parameter |
| Ensenso.StaysInStepIff | flowstate_ensenso/src/adapter_node.cc:110-122 | one batch keeps camera and record in step iff the server is ready and the camera accepts the goal, or the batch changes nothing |
| Ensenso.AgreeOnIff | flowstate_ensenso/src/adapter_node.cc:72-122 | over a whole run camera and record agree on a setting iff the goal of the last batch naming it was sent and accepted, or it set the value that the camera already had |
| Ensenso.UnsetKindStays | flowstate_ensenso/src/adapter_node.cc:72-122 | over a whole run a setting that no batch names stays, in camera and record |
| Ensenso.InfoCache.Store | flowstate_ensenso/src/adapter_node.cc:201-208 | both infos of a capture are cached together, so that the cache is always empty or the last pair that a capture brought |
| Ensenso.InfoCache.Describe | flowstate_ensenso/src/adapter_node.cc:213-246 | whatever other captures do meanwhile, the two infos are a pair that one capture brought; it fails only when nothing is cached and its own capture fails, and never with the missing-info error |
| LuxonisImage.ConvertBgrToRgb | flowstate_luxonis/src/adapter_node.cc:150-164 | for every well-formed image, also one higher than wide: the buffer, written in place row by row, is Rewritten of the image, and the first index written behind the buffer, if any, is the least pixel byte there; there is none iff the extent fits |
| LuxonisImage.InBoundsIff | flowstate_luxonis/src/adapter_node.cc:156-164 | all written indices are in the buffer iff the extent fits, and without overflow iff height is at most width; the buffer has the image's size iff it is square |
| LuxonisImage.TallImageOverruns | flowstate_luxonis/src/adapter_node.cc:156-164 | every image higher than wide, with a buffer size below 2^32, makes the code write behind the buffer from its very end on |
| LuxonisImage.TwoPixelsOverrun | flowstate_luxonis/src/adapter_node.cc:156-164 | a concrete image of two rows and one column that does |
| LuxonisImage.ChannelsAreSwapped | flowstate_luxonis/src/adapter_node.cc:159-164 | the result at (row, column, k) is the input at (row, column, 2 - k) |
| LuxonisImage.ChannelsByIndex | flowstate_luxonis/src/adapter_node.cc:150-164 | the same by byte index, for images not higher than wide and below 2^32 bytes |
| LuxonisImage.PaddingIsZero | flowstate_luxonis/src/adapter_node.cc:156-164 | bytes behind a row's pixels, and behind the rows, are zero |
| LuxonisImage.TwiceIsIdentity | flowstate_luxonis/src/adapter_node.cc:159-164 | rewriting twice gives back every pixel |

## Left out

- ROS transport, quality of service, executors and service plumbing, the vendor SDK nodes, TF and OpenCV, with the conversion of depth images from millimetres to metres: they appear as steps of the environment with the assumptions named above.
- Service entry points, configuration parsing, build scripts and simulation files: input, output and packaging.
- Logging, topic names, sensor descriptions and the Orbbec describe response: straight-line code.
- Software triggers of Orbbec snapshots: sending one changes none of the modelled data, and freshness is by arrival; that the images of different streams belong to one exposure is not claimed, because the lock is free between wait and copy.
- The deadlines of one second (Orbbec) and ten seconds (Zivid, Ensenso): giving up is a step that may happen whenever the condition is false.
- Deadlock freedom: parameters are read while the adapter's mutexes are held, and the ROS node's own lock is not part of this model.
- Floating-point rounding, NaN, clock jitter, and the text form of YAML documents: reals, ideal timers and event streams stand for them.
- Failure to construct an Orbbec driver, and destruction of an Orbbec adapter: the code does not handle the first and does not join the driver's thread in the second; the Orbbec lifecycle ends at the cancelled executor.
- Depth registration after a toggle: it is decided at creation only, so it is not part of the agreement between the two paths.
- The seconds of sleep in re-creation and cleanup, and the warm-up timer, which is one more snapshot caller.
- Threads.Join: does not say that the members of the derived adapter are destroyed before the base class joins the thread, while the thread may still use them; the model has no such members.
- LuxonisImage.ConvertBgrToRgb: the original goes on behind the end of the buffer, where the model stops; an empty image, for which OpenCV throws, is converted to an empty one.
- CleanupDeadNodes: does not claim that the loop ends when an unplugged node's executor keeps spinning, because joining its thread then blocks.
- SpawnListed: stands for both the Orbbec and the Luxonis loop, which are alike; exceptions from a node's constructor, which both let through, are not modelled.
- DriverFollowsParameters: takes every toggle, laser request and re-creation to succeed and requests to be served in order.
- StaysInStepIff: takes a goal to be applied as a whole, in the order in which goals are sent, or not at all.
- AgreeOnIff: takes a goal to be applied as a whole, in the order in which goals are sent, or not at all.
- ValueMeetsAutomaticIff: says in which mode the device is when a value comes; what it then does with the value is up to the device.
- SilentCameraIsReplaced: speaks of the request for a new node; whether the vendor's list then contains the device is up to the device.
