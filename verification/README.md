# SoulInjector: a verified model of the offline programmer

SoulInjector programs the flash of a target without a host. A SIDP service task and a
programming task share one job, one asset directory and one production log; a stage machine
drives one of two backends, a serial one for ESP32 targets and an SWD one for Cortex-M targets.
This project models that core in Dafny and proves what a recorded PASS is worth.

`dafny verify dfyconfig.toml` checks everything.

## How it is organised

| module | what it holds |
|---|---|
| `Base`, `Memory` | bytes, 32-bit wrap-around, 0xFF padding; flash that programming can only clear, RAM |
| `Jobs` | the job, its validation, and its publication into the fixed-size `target_config` |
| `Assets`, `AssetObjects` | uploads, activation of a staged job; step functions, and the objects that implement them |
| `Controller`, `ControllerObjects` | run bookkeeping and the production log; step functions, and the objects that implement them |
| `RunProtocol`, `RunInvariant`, `RunTheorems`, `RunStages` | both tasks as interleaved steps with explicit program counters, the inductive invariant, the theorems |
| `UnsafePins` | a PASS of a job that pins a partial upload, step by step from boot |
| `LogPaging` | `LOG_READ` page by page |
| `Esp32Flash`, `Esp32Backend` | erase and program semantics, sector ranges; the serial backend |
| `SwdLayout`, `SwdTarget`, `SwdProg` | RAM layout; a target that runs calls asynchronously; the flash programmer |
| `Procedures`, `Flasher` | pre- and post-program steps; the stage machine over both backends |
| `Device` | admission, stage machine and record of one run put together |
| `PlugDetect` | interrupt, debounce timer and handler of the detection pins |

The main results:

* **What a PASS means** (`RunTheorems.PassMeansVerified`, `RunStages.PassTookEveryStage`): over
  every interleaving of the two tasks, whenever a PASS record is appended, the same run had
  entered all eight stages in order and had ended VERIFY in a state in which every file the job
  pins had its pinned SHA-256 and was in flash byte for byte, and the record carries the hash of a
  file that decodes to that job. The job must not pin a partial upload;
  `UnsafePins.UnverifiedPass` is a behaviour in which one that does passes unverified.
* **Admission** (`RunTokenConservation`, `NoDeadlock`, `LogConservation`, `FailedLogStopsRuns`,
  `NothingChangesUnderARun`, `CancelledWasRequested`, `DoneIsRecordedPass`): exactly one run token while
  `running`, every admitted run executes once, nothing changes under it, the log accounts for it,
  and a cancel reaches its own run only, unless that has reached DONE.
* **Two writers, one meaning** (`PerformSimple`, `PerformDouble`, `WritePages`): against a target
  that may read its page buffer at any moment between launch and completion, both leave the same
  flash, and neither touches the algorithm's code or the canary word.
* **Several images** (`Esp32Backend.Backend.Program`): after validation the images can be
  programmed in list order; `AcceptedIff` says exactly what the validation accepts.
* **The stage machine** (`Flasher.OfflineFlasher.Run`, `Device.ProgrammingTask.RunJob`): every run
  ends, released, with all stages passed in order or with the first stage that failed, and is
  recorded as such; in a benign world every run passes, for both families.

Objects that the source updates in place are classes here. Their methods are proved against step
functions on values (`Begin`, `Commit`, `Activate`, `StartRun`, `AddRun`, ...), and it is these
step functions that `RunProtocol` interleaves.

## Where the code differs from what it says

* `activate_staged` calls its shortcut "a true no-op" because a published job is always saved.
  After a failed rename the previous job is still published but no longer on disk, and the
  shortcut then reports success (`ReactivateCanLeaveNoJobOnDisk`); `ActivateSavedIff` says exactly
  when a successful call leaves the job saved.
* `swd_prog::init` announces a check that covers the page buffers above the stack. The checked
  range ends at the stack; `SingleBufferCanLieOutside` shows the buffer outside the region, and
  `SingleBufferInsideIff` gives the exact condition on region and job. `StackFitsIff` gives the
  page sizes for which even the stack is covered.
* `validate_images` truncates a sector end to 32 bits. `TestedApartIff` and `AcceptedIff` say
  exactly what the overlap test then decides, at every limit; `TruncationHidesOverlap` shows an
  image that reaches into the last sector accepted next to any other.
* `swd_prog::init` also announces that its check counts the halt word below the code.
  `HaltWordInsideIff` says when that word is inside the region.
* ESP32 image paths are not checked. A job may pin the part file of an upload, which the host can
  still change after LOAD_ASSET (`UnsafePins.UnverifiedPass`). Names the store accepts are safe
  (`NamedPinsAreSafe`).
* The interrupt handler ignores the result of `xTimerStartFromISR`. `CoveredIff` says exactly which
  dropped starts lose a level; `DroppedStartDeafens` and `DeafForever` show the worst that does.

## Model

| member | source | states |
|---|---|---|
| `Jobs.ValidateRegions` | main/prog/config/job_decoder.cpp:106-125 | OK exactly when every region is non-empty and at most four are RAM |
| `Jobs.ValidateSelfTests` | main/prog/config/job_decoder.cpp:154-164 | OK exactly when every test has a known type |
| `Jobs.ValidateProcedure` | main/prog/config/job_decoder.cpp:167-179 | OK exactly when the procedure is absent or every step has a known operation |
| `Jobs.ValidateJob` | main/prog/config/job_decoder.cpp:127-206 | OK exactly for the jobs of the predicate Accepted; the schema error is reported exactly for a foreign version |
| `Jobs.AcceptedIff` | main/prog/config/job_decoder.cpp:106-206 | the conditions of validate_job and its helpers, one by one |
| `Jobs.PinsAre` | main/prog/fw_asset_manager.cpp:28-42 | every ESP32 image is pinned, in order, at its offset and with its hash; a Cortex-M job pins the firmware at flash_start |
| `Jobs.RamRegionsAre` | main/prog/config/job_decoder.cpp:241-253 | exactly the RAM entries of the memory map, in order |
| `Jobs.ConfigTellsJob` | main/prog/config/job_decoder.cpp:220-347 | every field a backend reads is the job's own |
| `Jobs.AlgoRegion` | main/prog/config/target_config.hpp:63-72 | the first region that holds the whole blob; none is chosen only when none holds it |
| `Jobs.TargetConfig.FillSelfTests` | main/prog/config/job_decoder.cpp:287-296 | the used part of the array is exactly the job's tests |
| `Jobs.TargetConfig.FillRamRegions` | main/prog/config/job_decoder.cpp:241-253 | the used part of the array is exactly the RAM entries of the memory map, in order, with no overrun |
| `Jobs.TargetConfig.FillEsp32` | main/prog/config/job_decoder.cpp:255-268 | the used part of the image array is the job's images; every serial field is the job's |
| `Jobs.TargetConfig.ClearEsp32` | main/prog/config/job_decoder.cpp:277-285 | nothing of an earlier ESP32 job remains observable |
| `Jobs.TargetConfig.FillTargetConfig` | main/prog/config/job_decoder.cpp:324-347 | from any previous configuration, the observable one is a function of the job alone; only the generation depends on history |
| `Jobs.TargetConfig.AlgoRamRegion` | main/prog/config/target_config.hpp:173-191 | the loop returns the first region that contains the blob |
| `Assets.PathsOfValidNames` | main/prog/asset_store.cpp:18-42 | the path of a valid name is never truncated |
| `Assets.ValidNameIff` | main/prog/asset_store.cpp:24-42 | which names are accepted |
| `Assets.PartNeverInstalled` | main/prog/asset_store.cpp:24-42 | no part path is the install path of a valid name |
| `Assets.PathsInjective` | main/prog/asset_store.cpp:18-22 | different names have different paths |
| `Assets.FixedPathsNotPart` | main/prog/asset_store.cpp:24-42 | job.pb, the staged job and the firmware are never part files |
| `Assets.OneSpelling` | main/prog/asset_store.cpp:26-40 | accepted names and their part files are spelled as FAT matches them |
| `Assets.OtherSpelling` | main/prog/asset_store.cpp:26-40 | other spellings of a part file are different strings |
| `Assets.BeginKeeps` | main/prog/asset_store.cpp:133-188 | begin keeps the upload invariant and touches part files only; resuming returns the length of the part file |
| `Assets.WriteKeeps` | main/prog/asset_store.cpp:190-211 | write keeps the upload invariant, appends an accepted chunk and touches part files only |
| `Assets.CommitKeeps` | main/prog/asset_store.cpp:213-251 | success installs exactly size bytes with the declared hash; a hash mismatch leaves all installed files alone; only a failed rename can remove the replaced asset |
| `Assets.BeginIff` | main/prog/asset_store.cpp:133-188 | exactly when begin succeeds, resumes, finds the asset present or opens a new upload, and with which offset |
| `Assets.WriteIff` | main/prog/asset_store.cpp:190-211 | exactly when a chunk is accepted, and what it adds |
| `Assets.CommitIff` | main/prog/asset_store.cpp:213-251 | exactly when a commit succeeds |
| `Assets.UploadsNeverWriteJob` | main/prog/asset_store.cpp:133-141 | neither path of an open upload is job.pb |
| `Assets.UploadHistory` | main/prog/asset_store.cpp:111-251 | over every history with failures: the part file is the concatenation of the acknowledged chunks, its length the resume offset, and job.pb is unchanged |
| `Assets.CommitInstallsAcknowledged` | main/prog/asset_store.cpp:213-251 | a successful commit after any history installs exactly the acknowledged bytes |
| `Assets.UploadSucceeds` | main/prog/asset_store.cpp:133-251 | a file cut into any chunks arrives: without faults the commit succeeds exactly when the declared hash is right |
| `Assets.BootEstablishesActive` | main/prog/fw_asset_manager.cpp:82-97 | loading at boot establishes the active-job invariant |
| `Assets.ActivateKeeps` | main/prog/fw_asset_manager.cpp:99-128 | activation keeps job.pb absent or hashing to the active hash; absent only through a failed rename; a failure keeps the old job |
| `Assets.ActivateIff` | main/prog/fw_asset_manager.cpp:99-128 | exactly when an activation succeeds, and which job it publishes |
| `Assets.BootIff` | main/prog/fw_asset_manager.cpp:82-97 | exactly when a stored job is loaded at boot |
| `Assets.ActivateSavedIff` | main/prog/fw_asset_manager.cpp:99-128 | exactly when a successful activation leaves the job saved |
| `Assets.ReactivateCanLeaveNoJobOnDisk` | main/prog/fw_asset_manager.cpp:101-104 | the shortcut reports success with no job on disk after a failed rename |
| `Assets.UploadKeepsActive` | main/prog/fw_asset_manager.cpp:71-128 | no upload operation disturbs the active job, and job.pb is what it was |
| `AssetObjects.HashFile` | main/prog/asset_store.cpp:44-69 | reading in pieces hashes the whole file; the error cases exactly |
| `AssetObjects.FileSystem.InstallFile` | main/prog/asset_store.cpp:71-79 | the files after unlink and rename, including a rename that fails |
| `AssetObjects.AssetStore.AbortUpload` | main/prog/asset_store.cpp:116-131 | implements Abort: the part file is gone and nothing is open |
| `AssetObjects.AssetStore.IsPresent` | main/prog/asset_store.cpp:81-90 | true exactly for a readable file of that size and hash |
| `AssetObjects.AssetStore.BeginUpload` | main/prog/asset_store.cpp:133-188 | implements Begin: result, presence, resume offset and the whole new state |
| `AssetObjects.AssetStore.WriteChunk` | main/prog/asset_store.cpp:190-211 | implements Write and keeps the upload invariant |
| `AssetObjects.AssetStore.CommitUpload` | main/prog/asset_store.cpp:213-251 | implements Commit and keeps the upload invariant |
| `AssetObjects.VerifyJobImages` | main/prog/fw_asset_manager.cpp:13-50 | OK exactly when every pinned file is readable and has its pinned hash |
| `AssetObjects.AssetManager.Publish` | main/prog/fw_asset_manager.cpp:71-80 | job, hash and configuration change together |
| `AssetObjects.AssetManager.DecodePath` | main/prog/fw_asset_manager.cpp:52-69 | a job is returned exactly when the file decodes, validates and its images match |
| `AssetObjects.AssetManager.Boot` | main/prog/fw_asset_manager.cpp:82-97 | implements LoadAtBoot |
| `AssetObjects.AssetManager.ActivateStaged` | main/prog/fw_asset_manager.cpp:99-128 | implements Activate; the published configuration is always that of the published job |
| `ControllerObjects.JobController.SetJob` | main/prog/job_controller.cpp:58-75 | refused for an unknown trigger and while running, with nothing changed; otherwise activation, then the trigger, which can fail on its own |
| `ControllerObjects.JobController.CommitAssetUpload` | main/prog/job_controller.cpp:77-83 | refused while running; otherwise the commit |
| `ControllerObjects.JobController.RequestOneRun` | main/prog/job_controller.cpp:94-116 | admitted exactly when idle, with a job and room in the log; an admitted run has a fresh id and no cancel, a refused request changes nothing |
| `ControllerObjects.JobController.BeginAutoRun` | main/prog/job_controller.cpp:118-128 | admitted exactly when also armed for automatic runs; otherwise nothing changes |
| `ControllerObjects.JobController.Cancel` | main/prog/job_controller.cpp:130-137 | the flag is set exactly for the run in progress, when it or any run is named |
| `ControllerObjects.JobController.FinishRun` | main/prog/job_controller.cpp:167-202 | the first section decides the outcome, one record carries it with the job's hash, and a cancel between the sections reaches neither this run nor the next |
| `Device.ProgrammingTask.Input` | main/prog/fw_asset_manager.cpp:71-80 | what a run reads is the published job with its own configuration |
| `Device.ProgrammingTask.RunJob` | main/bootstrap_fsm.cpp:253-275 | a claimed run of the published job ends released and recorded with its hash: PASS only after all stages in order with the pinned contents in flash at VERIFY, otherwise naming the failed stage; PASS in a benign world |
| `Device.ProgrammingTask.RunFsmTask` | main/bootstrap_fsm.cpp:224-237 | a plug edge runs exactly when admitted, a requested run always; a refused edge changes nothing |
| `RunInvariant.SidpTokens` | main/prog/job_controller.cpp:58-137 | every step of the service task keeps tokens equal to running, and cancel implies running |
| `RunInvariant.ProgTokens` | main/bootstrap_fsm.cpp:224-237 | so does every step of the programming task outside the stages |
| `RunInvariant.SidpLog` | main/prog/job_controller.cpp:94-116 | the log account survives the service task |
| `RunInvariant.ProgLog` | main/prog/prog_log.cpp:47-66 | the log account survives admission, recording and the end of a run |
| `RunInvariant.RunFrame` | main/prog/offline_flasher.cpp:262-352 | a stage step stays inside the run, touches its variables only and keeps the failed stage consistent |
| `RunInvariant.RunBounds` | main/prog/fw_asset_manager.cpp:28-42 | the loops over pinned files stay inside the job |
| `RunInvariant.AssetsFrozen` | main/prog/job_controller.cpp:58-83 | while a run is admitted the service task changes neither the job nor any file but part files |
| `RunInvariant.SidpAssets` | main/prog/fw_asset_manager.cpp:71-128 | every step of the service task keeps the upload and active-job invariants |
| `RunInvariant.HashRunInv` | main/prog/fw_asset_manager.cpp:13-50 | LOAD_ASSET, piece by piece, establishes the pinned hashes |
| `RunInvariant.CompareAdvance` | main/prog/esp32_serial_backend.cpp:565-609 | a matching block extends the compared prefix; the last one completes the padded image |
| `RunInvariant.CompareRunInv` | main/prog/esp32_serial_backend.cpp:531-619 | VERIFY, block by block, keeps what has been compared so far |
| `RunTheorems.InvStep` | main/prog/job_controller.cpp:58-202 | the admission invariant is inductive over every step of both tasks |
| `RunTheorems.Reachable` | main/bootstrap_fsm.cpp:224-275 | the invariant holds in every state of every behaviour |
| `RunTheorems.MutualExclusion` | main/prog/job_controller.cpp:34-42 | the tasks are never both inside the critical section |
| `RunTheorems.RunTokenConservation` | main/prog/job_controller.cpp:85-128 | running exactly when one token exists, never two; every admitted run begins exactly once |
| `RunTheorems.RequestAdmittedIff` | main/prog/job_controller.cpp:94-116 | a request that holds the lock is admitted exactly when idle, with a job and room in the log |
| `RunTheorems.AutoAdmittedIff` | main/prog/job_controller.cpp:118-128 | a plug edge is admitted exactly when also armed |
| `RunTheorems.BitsTakenTogether` | main/bootstrap_fsm.cpp:224-237 | a plug edge that comes with a request is used up by the requested run |
| `RunTheorems.TriggerIsSet` | main/prog/job_controller.cpp:58-75 | a saved trigger arms the job |
| `RunTheorems.RunOrigin` | main/prog/job_controller.cpp:85-128 | the run in progress was admitted by exactly the kind of step its trigger names |
| `RunTheorems.RecordTellsTrigger` | main/prog/job_controller.cpp:191-202 | a record's trigger is that of the step that admitted its run |
| `RunTheorems.NoDeadlock` | main/bootstrap_fsm.cpp:224-275 | in every reachable state with an admitted run, that run or whoever holds the lock can take a step |
| `RunTheorems.LockHolderCanStep` | main/prog/job_controller.cpp:34-42 | whoever holds the lock, with or without a run, can take a step |
| `RunTheorems.ActiveJobOnDisk` | main/prog/fw_asset_manager.cpp:71-128 | over every behaviour, job.pb of a published job is absent or hashes to the active hash, and absent only after a failed install rename |
| `RunTheorems.LogConservation` | main/prog/job_controller.cpp:167-202 | started = recorded + in flight + one if a write failed; recorded ids are 1, 2, 3, ... and increase until the 32-bit wrap |
| `RunTheorems.FailedLogStopsRuns` | main/prog/prog_log.cpp:47-66 | after a failed write no run is admitted in this boot |
| `RunTheorems.NothingChangesUnderARun` | main/prog/job_controller.cpp:58-83 | between admission and end neither the job nor any installed file changes |
| `UnsafePins.UnverifiedPass` | main/prog/fw_asset_manager.cpp:28-42 | for every environment and every job that pins the part file of an upload, alone or next to other images, a behaviour from boot that records PASS although no state of it has every pinned file in flash |
| `UnsafePins.SuchAScene` | main/prog/asset_store.cpp:24-42 | such environments exist, for all small contents |
| `RunInvariant.NamedPinsAreSafe` | main/prog/asset_store.cpp:24-42 | a job whose images have names the store accepts pins no partial upload |
| `RunTheorems.CortexJobsAreSafe` | main/prog/fw_asset_manager.cpp:28-42 | a Cortex-M job pins no partial upload |
| `RunTheorems.VerifyEnds` | main/prog/offline_flasher.cpp:118-131 | the only way past VERIFY is its last matching block, with every pinned file in flash |
| `RunTheorems.VerifyWitness` | main/prog/offline_flasher.cpp:118-131 | every state past VERIFY has such a state behind it in the same run |
| `RunTheorems.PassMeansVerified` | main/prog/job_controller.cpp:167-202 | the end-to-end meaning of a PASS record, for both families, of every job that pins no partial upload |
| `RunTheorems.PassMeansVerifiedForNamedImages` | main/prog/job_controller.cpp:167-202 | the same for every job whose images have names the store accepts |
| `RunStages.StepOnward` | main/prog/offline_flasher.cpp:285-352 | every step of either task keeps a run in its stage or moves it from one stage to the next |
| `RunStages.PassTookEveryStage` | main/prog/offline_flasher.cpp:285-352 | a PASS record's run entered the eight stages and DONE one after the other, and left VERIFY with everything in place |
| `RunStages.FailureIsRecorded` | main/prog/offline_flasher.cpp:272-283 | along every behaviour, a run whose stage failed is recorded as not passed, under the name of that stage |
| `RunStages.GoodRunGoesOn` | main/prog/offline_flasher.cpp:285-352 | with no fault outside, no cancel, the pinned files in place and VERIFY finding them, no step of a run fails, for both families |
| `RunTheorems.RecordStep` | main/prog/job_controller.cpp:191-202 | records come only from record_run; PASS exactly when the run returned OK; a stage is named exactly otherwise |
| `RunTheorems.CancelIsolation` | main/prog/job_controller.cpp:130-137 | a set flag was set by a request for this very run while it was running |
| `RunTheorems.CancelTakes` | main/prog/job_controller.cpp:130-137 | a request that names the run sets its flag |
| `RunTheorems.CancelStopsRun` | main/prog/offline_flasher.cpp:262-270 | after a cancel request no further stage of that run is entered |
| `RunTheorems.CancelledWasRequested` | main/prog/job_controller.cpp:167-189 | a CANCELLED record stems from a cancel request for that very run |
| `RunTheorems.CancelStaysCancelled` | main/prog/offline_flasher.cpp:262-270 | a run stopped by the cancel check stays on its way to a CANCELLED record |
| `RunTheorems.CancelledIsRecordedCancelled` | main/prog/offline_flasher.cpp:262-270 | a run stopped by the cancel check is recorded CANCELLED, naming its stage, whatever the other task does |
| `RunTheorems.DoneIsRecordedPass` | main/prog/job_controller.cpp:167-189 | along every behaviour, a run that reached DONE is recorded PASS whenever a cancel arrives |
| `LogPaging.OverheadSuffices` | main/prog/prog_log.cpp:144-145 | tag and length prefix never need more than three bytes in the response buffer ("Base 128 Varints" of the Protocol Buffers encoding specification) |
| `LogPaging.VarintLenExact` | main/prog/prog_log.cpp:144-145 | seven bits per byte and no byte wasted |
| `LogPaging.FirstAfterMeans` | main/prog/prog_log.cpp:110-121 | reading after an id continues with exactly the entries above it |
| `LogPaging.PageUnique` | main/prog/prog_log.cpp:142-168 | a page is the longest run of entries that fits |
| `LogPaging.NeverOverruns` | main/comm/sidp_service.cpp:88-91 | what fitted under the estimate fits the buffer |
| `LogPaging.ReadPage` | main/prog/prog_log.cpp:142-168 | emits exactly the page after the id, never overruns the stream, and fails exactly when the first entry is unreadable |
| `LogPaging.PullLog` | main/prog/prog_log.cpp:142-168 | reading on from the last id returns a prefix in order without repetition; all of it exactly when every entry fits alone |
| `Esp32Flash.ProgrammedHolds` | main/prog/esp32_serial_backend.cpp:415-529 | erasing the touched sectors and programming leaves the data in flash |
| `Esp32Flash.OtherImageSurvives` | main/prog/esp32_serial_backend.cpp:205-257 | an image in other sectors survives |
| `Esp32Flash.TestedApartIff` | main/prog/esp32_serial_backend.cpp:241-253 | at every limit, the test tells two images apart exactly when they share no sector or one reaches into the last sector |
| `Esp32Flash.AcceptedIff` | main/prog/esp32_serial_backend.cpp:205-257 | exactly what the check accepts, at every limit |
| `Esp32Flash.AcceptedIffDisjoint` | main/prog/esp32_serial_backend.cpp:205-257 | up to 0xFFFFF000 the check accepts exactly fitting images with disjoint sectors |
| `Esp32Flash.ExactEnd` | main/prog/esp32_serial_backend.cpp:241-246 | the 32-bit truncation is exact precisely for images that end at or below 0xFFFFF000 |
| `Esp32Flash.TruncationHidesOverlap` | main/prog/esp32_serial_backend.cpp:241-253 | an image that reaches into the last sector is accepted next to any other, even at the same offset |
| `Esp32Backend.ConfiguredLimitIsExact` | main/prog/esp32_serial_backend.cpp:126-127 | a configured flash size keeps the limit far below that point |
| `Esp32Backend.LimitIs` | main/prog/esp32_serial_backend.cpp:313-367 | the limit is the smallest known size; none exactly when none is known or the configured one is bad |
| `Esp32Backend.Backend.ValidateImages` | main/prog/esp32_serial_backend.cpp:205-257 | OK exactly for images that fit and pass the overlap test pairwise |
| `Esp32Backend.Backend.Connect` | main/prog/esp32_serial_backend.cpp:259-397 | connects exactly when every step succeeds and the images are accepted; every early exit leaves loader, flag and limit consistent |
| `Esp32Backend.Backend.ReleaseTransport` | main/prog/esp32_serial_backend.cpp:671-681 | closed, disconnected, no limit |
| `Esp32Backend.Backend.NextBlock` | main/prog/esp32_serial_backend.cpp:479-499 | the block is the next file bytes with the 0xFF tail after the last one, within 4096 bytes |
| `Esp32Backend.TailFits` | main/prog/esp32_serial_backend.cpp:479-499 | the tail never passes the end of the block |
| `Esp32Backend.Backend.ProgramOneImage` | main/prog/esp32_serial_backend.cpp:415-529 | the bytes sent are the padded file, in order, and flash is what programming them at the offset gives; a faithful target succeeds |
| `Esp32Backend.Backend.VerifyOneImage` | main/prog/esp32_serial_backend.cpp:531-619 | OK implies equality over the whole padded range, and a faithful target that has it passes |
| `Esp32Backend.Backend.Program` | main/prog/esp32_serial_backend.cpp:621-643 | all images are in flash together after programming in list order; the reported length is their total modulo 2^32 |
| `Esp32Backend.Backend.Verify` | main/prog/esp32_serial_backend.cpp:645-660 | OK means every image is in flash, and conversely on a faithful target |
| `SwdLayout.PlaceExact` | main/prog/swd_prog.cpp:57-92 | closed form of the layout when no 32-bit sum wraps |
| `SwdLayout.ChecksExact` | main/prog/swd_prog.cpp:244-255 | capacity check and writer choice without modular arithmetic |
| `SwdLayout.StackFitsIff` | main/prog/swd_prog.cpp:240-255 | the check covers the stack exactly when the alignment gaps stay within eight bytes |
| `SwdLayout.CodeAndStackPlaced` | main/prog/swd_prog.cpp:224-314 | for pages of a multiple of four bytes, code and stack are inside the region and apart |
| `SwdLayout.DoubleBuffersPlaced` | main/prog/swd_prog.cpp:643-649 | on the double-buffered path both buffers are inside and clear of code, stack, canary and each other |
| `SwdLayout.SingleBufferInsideIff` | main/prog/swd_prog.cpp:816-834 | the single buffer is inside the region exactly when load address, lengths, page and stack leave room for it |
| `SwdLayout.SingleBufferCanLieOutside` | main/prog/swd_prog.cpp:240-255 | the capacity check does not give that room |
| `SwdLayout.HaltWordInsideIff` | main/prog/swd_prog.cpp:240-255 | the halt word is inside the region exactly when the code does not start in its first four bytes |
| `SwdTarget.OpenModeMeans` | main/prog/swd_prog.cpp:94-205 | an open bracket is a successful Init in that mode with no UnInit, load, reset or Init since |
| `SwdProg.Programmer.StoreAlgorithm` | main/prog/swd_prog.cpp:57-88 | halt word, code and canary are in RAM, and the canary of this job's layout hits neither of the others |
| `SwdProg.Programmer.LoadFlashAlgorithm` | main/prog/swd_prog.cpp:22-92 | loading ends every bracket and leaves code and canary in place; a failure never leaves the host believing in a bracket |
| `SwdProg.Programmer.Init` | main/prog/swd_prog.cpp:207-324 | on success the layout of this job, in a region that passed the check; a faithful target succeeds with every job that has one |
| `SwdProg.Programmer.RunAlgoInit` | main/prog/swd_prog.cpp:94-150 | initialised exactly on success, inside a bracket of the requested mode, with code and canary in place; it gives up on a loaded algorithm only after three attempts |
| `SwdProg.Programmer.RunAlgoUninit` | main/prog/swd_prog.cpp:152-205 | success closes the bracket and means that the canary is intact; conversely an intact canary passes on a faithful target |
| `SwdProg.Programmer.EraseChip` | main/prog/swd_prog.cpp:326-387 | the erase call is bracketed, and success leaves the device blank and the bracket closed; a target may refuse it |
| `SwdProg.Programmer.EraseSector` | main/prog/swd_prog.cpp:436-502 | on success exactly the sectors of the range, in order, inside one bracket, and the range is blank |
| `SwdProg.Programmer.SelfTest` | main/prog/swd_prog.cpp:389-434 | unsupported exactly when the algorithm has no verify entry; success adds this test with its answer to the target's history; it may leave any flash |
| `SwdProg.Programmer.PerformSimple` | main/prog/swd_prog.cpp:816-869 | exactly the file has been programmed from the address on; no RAM outside the buffer changed |
| `SwdProg.Programmer.FillThenWait` | main/prog/swd_prog.cpp:762-778 | a page in flight lands unharmed by the write to the other buffer, which changes that buffer only |
| `SwdProg.Programmer.PerformDouble` | main/prog/swd_prog.cpp:743-814 | the same flash as with one buffer, whenever the target reads its buffer; no RAM outside the two buffers changed |
| `SwdProg.Programmer.WritePages` | main/prog/swd_prog.cpp:643-649 | whichever writer is chosen, the host leaves code and canary alone, uses one buffer unless there is room for two, and stays inside the region when it takes two or there is room for one |
| `SwdProg.Programmer.Erase` | main/prog/swd_cortexm_backend.cpp:34-48 | chip erase or its sector fallback, all in brackets; success leaves the device blank, and sectors make up for a chip erase that is missing or refused |
| `SwdProg.Programmer.ProgramFile` | main/prog/swd_prog.cpp:585-662 | whichever writer is chosen, success means the file has been programmed, the canary survived and the bracket is closed; a faithful target succeeds |
| `SwdProg.Programmer.VerifyFile` | main/prog/swd_prog.cpp:664-728 | OK means that the compared bytes agree, addresses wrapping as in the code, and conversely on a faithful target |
| `Procedures.Port.ReadModWrite` | main/prog/procedure_executor.cpp:17-27 | one read and one write of the masked value; a failure writes nothing |
| `Procedures.Port.Poll` | main/prog/procedure_executor.cpp:29-47 | only reads, stops at the first match, times out only after the deadline and a mismatch |
| `Procedures.Port.ExecOne` | main/prog/procedure_executor.cpp:60-90 | a step goes into the history, and if it succeeds the link supports it and its register accesses are those of its operation |
| `Procedures.ModifiedBits` | main/prog/procedure_executor.cpp:17-27 | which bits a read-modify-write sets and keeps |
| `Procedures.Port.Execute` | main/prog/procedure_executor.cpp:92-109 | every step is tried in order up to the first that fails and may not; OK means all were; a faithful target passes every procedure whose counting steps cannot fail, and before detect exactly those without register or debug steps that count |
| `Controller.StagesInOrder` | main/prog/offline_flasher.cpp:285-352 | success moves through the eight stages in their order |
| `Controller.ReportedStages` | main/prog/job_controller.cpp:139-165 | each stage is reported under its own name and nothing else under any of them |
| `Flasher.OfflineFlasher.Start` | main/prog/offline_flasher.cpp:15-27 | whatever an earlier run left, a run starts with both transports released |
| `Flasher.FlashedIffPinsHeld` | main/prog/fw_asset_manager.cpp:28-42 | what the stage machine programs and reads back is exactly what the job pins |
| `Flasher.SimpleTestsAre` | main/prog/offline_flasher.cpp:133-186 | exactly the simple tests of the job, in order |
| `Flasher.OfflineFlasher.SwdSelfTests` | main/prog/offline_flasher.cpp:133-186 | passing means that every simple test was run once, in order, and answered zero, unless the target has no test entry |
| `Flasher.OfflineFlasher.Procedure` | main/prog/offline_flasher.cpp:354-382 | passing means a new session and every step of the procedure tried, none failing that may not |
| `Flasher.OfflineFlasher.OnLoadAsset` | main/prog/offline_flasher.cpp:384-405 | passing means a job whose pinned files match, and its backend selected |
| `Flasher.OfflineFlasher.OnPreProgram` | main/prog/offline_flasher.cpp:354-382 | passing means the job's procedure ran through, with the connection still closed |
| `Flasher.OfflineFlasher.OnDetect` | main/prog/offline_flasher.cpp:86-105 | at most eleven attempts; passing means connected or laid out for this job |
| `Flasher.OfflineFlasher.OnErase` | main/prog/offline_flasher.cpp:56-72 | passing leaves a Cortex-M device blank and the bracket closed |
| `Flasher.OfflineFlasher.OnProgram` | main/prog/offline_flasher.cpp:74-84 | passing on a benign world means everything is in flash |
| `Flasher.OfflineFlasher.OnVerify` | main/prog/offline_flasher.cpp:118-131 | passing means everything the job pins is in the target's flash at that moment |
| `Flasher.OfflineFlasher.OnSelfTest` | main/prog/offline_flasher.cpp:133-186 | passing means the job's tests answered zero and the target was reset; unsupported tests do not fail the run; test code and firmware may leave any flash |
| `Flasher.OfflineFlasher.OnPostProgram` | main/prog/offline_flasher.cpp:188-227 | passing means the job's procedure ran through and leads to DONE with the transport released |
| `Flasher.OfflineFlasher.RunState` | main/prog/offline_flasher.cpp:285-352 | one stage moves to its successor with what that stage needs, or to ERROR |
| `Flasher.OfflineFlasher.HandleStates` | main/prog/offline_flasher.cpp:262-283 | each call lowers the stage measure or ends the run, released |
| `Flasher.OfflineFlasher.Run` | main/prog/offline_flasher.cpp:262-352 | termination, release, stages in order, flash contents when VERIFY ended, procedures run through and tests answered on OK, the first failed stage otherwise, brackets throughout, and success in a benign world for both families |
| `PlugDetect.HandlerKeeps` | main/bootstrap_fsm.cpp:293-342 | every step of the debounce handler keeps the invariant, whatever interrupts it |
| `PlugDetect.IsrKeeps` | main/bootstrap_fsm.cpp:277-291 | so does every step of the interrupt handler |
| `PlugDetect.Reachable` | main/bootstrap_fsm.cpp:277-342 | the invariant holds in every reachable state |
| `PlugDetect.CoveredIff` | main/bootstrap_fsm.cpp:277-342 | along every behaviour, each pin is always armed for the opposite of its recorded level or a debounce is on its way, exactly when no timer start is dropped with none pending while a pin is masked that the handler will not arm |
| `PlugDetect.NoLostLevel` | main/bootstrap_fsm.cpp:277-342 | up to the first such drop the pins are covered, and the recorded levels are the actual ones whenever nothing can move |
| `PlugDetect.EdgesCounted` | main/bootstrap_fsm.cpp:311-327 | every change of the recorded level to connected is counted, and nothing else |
| `PlugDetect.ConnectEdges` | main/bootstrap_fsm.cpp:311-327 | a pending connect bit means connected; every change of the recorded level to connected is taken once, withdrawn or pending |
| `PlugDetect.UsbLock` | main/bootstrap_fsm.cpp:329-342 | the light-sleep lock is held exactly while USB power is recorded |
| `PlugDetect.DroppedStartDeafens` | main/bootstrap_fsm.cpp:277-291 | one timer start that is dropped masks the pins with no debounce coming |
| `PlugDetect.DeafForever` | main/bootstrap_fsm.cpp:277-291 | and nothing ever re-arms them |

## Left out

- Display, LED, panel code, Wi-Fi and modem: no part in the programming logic.
- SIDP framing, SLIP, CRC and nanopb: a job is what the decoder yields; SHA-256 and the decoder are arbitrary functions, and an incremental hash is the hash of the concatenation.
- on9rstore, FatFs, NVS, esp-serial-flasher and the SWD host driver: an append-or-fail log, a map from paths to bytes, a save that may fail, a NOR flash with sector erase, and a target with asynchronous calls. Their failures are inputs or free choices.
- Bodies of critical sections that only touch protected fields are single steps of `RunProtocol`. Status queries, log acknowledgement, the clock (`get_status`, `get_info`, `ack`, `set_time`) and the removal of stale uploads at boot are not modelled.
- File names are compared as strings. FAT also accepts other spellings of the same file, such as upper case and short names; for names the store accepts the two agree (`Assets.OneSpelling`), for other ESP32 image paths they need not (`Assets.OtherSpelling`).
- A write to a file is taken to be visible to readers at once; buffering in the C library is not modelled.
- Durations, timestamps and job names in run records.
- SG_CURRENT_TEST, `swd_prog::program_page` and `largest_ram_region`: not part of the normal flow.
- Real time: delays, baud rates and power-management locks other than the USB one; a poll's clock only has to advance. Retries of `fopen` in `program_file` are one open that may fail because the file is missing.
- Races of `bootstrap_fsm::init`: `PlugDetect` starts when initialisation has finished.
- Assets.ActivateKeeps: error codes of decoding and validation are collapsed to one failure, as callers do not distinguish them.
- AssetObjects.AssetManager.DecodePath: the same, and running out of memory is one more such failure.
- AssetObjects.AssetStore.AbortUpload: removing the part file is taken to succeed.
- RunTheorems.PassMeansVerified: asks that the job of the run pins no partial upload, which the firmware does not check; `UnsafePins.UnverifiedPass` shows that this is needed.
- RunTheorems.NoDeadlock: states that a step is enabled, not that a scheduler takes it.
- SwdProg.Programmer.ProgramFile: what ends up in flash is stated where the RAM layout and the flash addresses do not wrap around the 32-bit space, and for full reads of the firmware file.
- SwdProg.Programmer.WritePages: likewise, what the host leaves alone in RAM is stated for layouts that do not wrap around.
- SwdProg.Programmer.RunAlgoUninit: a flash algorithm changes no RAM but its stack, whose overrun is a free change of the canary word found at UnInit.
- SwdProg.Programmer.EraseChip: the device is taken to span flash_start to flash_end, and a sector to be one page long, as the code assumes.
- SwdProg.Programmer.SelfTest: the value the test returns is free on a target that is not faithful and zero on one that is.
- Flasher.OfflineFlasher.Run: success in a benign world asks of a Cortex-M job that its layout does not wrap around; everything else is stated for all jobs.
- Procedures.Port.ExecOne: the effect of reset, halt and re-initialisation on the target is not modelled beyond success and failure; on an ESP32 target that has been reset, register access may succeed or fail.
- Esp32Backend.Backend.ProgramOneImage: a short read of the file and a refused block are the same free failure.
- Esp32Backend.Backend.Connect: chip-name lookup, UART setup and baud-rate change are outcomes of a probe.
