/**
 * The programming task (main/bootstrap_fsm.cpp, run_fsm_task and run_job): admission, the stage
 * machine and the record of one run put together.
 */
module Device {
  import opened Base
  import opened Jobs
  import opened Assets
  import opened AssetObjects
  import opened Controller
  import opened ControllerObjects
  import opened Flasher

  class ProgrammingTask {
    const ctl: JobController
    const flasher: OfflineFlasher

    constructor (ctl: JobController, flasher: OfflineFlasher)
      requires ctl.Valid() && flasher.Valid()
      ensures this.ctl == ctl && this.flasher == flasher
    {
      this.ctl, this.flasher := ctl, flasher;
    }

    /** What a run that starts now works on: the published job, its configuration and the files. */
    function Input(): (i: RunInput)
      requires ctl.assets.Valid()
      reads ctl.assets, ctl.assets.fs, ctl.assets.cfg
      reads ctl.assets.cfg.ramRegions, ctl.assets.cfg.images, ctl.assets.cfg.tests
      ensures i.Consistent()
    {
      RunInput(ctl.assets.env, ctl.assets.job, ctl.assets.cfg.View(), ctl.assets.fs.files)
    }

    /** A record that tells what this run did, for which job. */
    ghost predicate Records(i: RunInput, ret: Err, rec: RunRecord)
      reads flasher, ctl, ctl.assets
    {
      && rec.error == ret && rec.result.runId == ctl.lastRunId && rec.jobSha == ctl.assets.activeSha
      && (rec.result.outcome == OutcomePass <==> ret == Ok) && ResultOk(rec.result)
      && (ret == Ok ==> i.job.Some? && PinsMatch(i.env, i.files, i.job.value.job) && i.Flashed(flasher.atVerify))
      && (ret != Ok ==> Working(flasher.failed) && rec.result.failedStage == ToStage(flasher.failed))
    }

    /** The end of a run whose stages have ended like this. */
    method RecordRun(ghost i: RunInput, ret: Err, cancel: bool, lateCancel: bool, appended: bool)
      requires ctl.Valid() && ctl.running && (ret != Ok ==> Working(flasher.failed))
      requires ret == Ok ==> i.job.Some? && PinsMatch(i.env, i.files, i.job.value.job) && i.Flashed(flasher.atVerify)
      modifies ctl, ctl.log
      ensures ctl.Valid() && !ctl.running && !ctl.cancelFlag && ctl.lastRunId == old(ctl.lastRunId)
      ensures if appended then
                && |ctl.log.recs| == |old(ctl.log.recs)| + 1 && old(ctl.log.recs) <= ctl.log.recs
                && Records(i, ret, ctl.log.recs[|old(ctl.log.recs)|])
              else ctl.log.recs == old(ctl.log.recs) && ctl.log.writeFailed
    {
      if cancel {
        ctl.Cancel(0);
      }
      ctl.FinishRun(ret, flasher.failed, appended, lateCancel);
    }

    /**
     * A claimed run of the published job: all stages, then the record. Whatever the target, the
     * store and a host that cancels do, the run ends released and no longer running, with at
     * most one record, which says PASS only if every stage passed in order and VERIFY ended with
     * everything the job pins in flash, and otherwise names the stage that failed. In a benign
     * world it is a PASS.
     */
    method RunJob(i: RunInput, w: World, cancel: bool, lateCancel: bool, appended: bool)
      returns (ret: Err, ghost passed: seq<PgState>)
      requires ctl.Valid() && flasher.Valid() && ctl.running && ctl.assets.Valid() && i == Input()
      modifies ctl, ctl.log, flasher, flasher.esp, flasher.esp.loader, flasher.esp.block
      modifies flasher.swd, flasher.swd.target, flasher.port
      ensures ctl.Valid() && flasher.Valid() && flasher.Released()
      ensures !ctl.running && !ctl.cancelFlag && ctl.lastRunId == old(ctl.lastRunId)
      ensures if appended then
                && |ctl.log.recs| == |old(ctl.log.recs)| + 1 && old(ctl.log.recs) <= ctl.log.recs
                && Records(i, ret, ctl.log.recs[|old(ctl.log.recs)|])
              else ctl.log.recs == old(ctl.log.recs) && ctl.log.writeFailed
      ensures passed == if ret == Ok then ORDER else StagesBefore(flasher.failed)
      ensures Benign(i, w) ==> ret == Ok
    {
      ret, passed := flasher.Run(i, w);
      RecordRun(i, ret, cancel, lateCancel, appended);
    }

    /**
     * One turn: a requested run has already been claimed; a target that was plugged in runs
     * only if that is admitted now, and otherwise nothing changes.
     */
    method RunFsmTask(i: RunInput, requested: bool, canAppend: bool, w: World, cancel: bool, lateCancel: bool,
                      appended: bool) returns (ran: bool)
      requires ctl.Valid() && flasher.Valid() && (requested ==> ctl.running) && ctl.assets.Valid() && i == Input()
      modifies ctl, ctl.log, flasher, flasher.esp, flasher.esp.loader, flasher.esp.block
      modifies flasher.swd, flasher.swd.target, flasher.port
      ensures ctl.Valid() && flasher.Valid()
      ensures ran <==> requested || (!old(ctl.running) && old(ctl.trigger) == AutoOnDetect && i.job.Some?
                                     && HasSpace(old(ctl.log.View()), canAppend))
      ensures !ran ==> ctl.View() == old(ctl.View()) && ctl.log.View() == old(ctl.log.View())
      ensures ran ==> !ctl.running
      ensures ran ==> ctl.lastRunId == if requested then old(ctl.lastRunId) else Wrap(old(ctl.lastRunId) + 1)
      ensures ran && appended ==>
                && |ctl.log.recs| == |old(ctl.log.recs)| + 1
                && var rec := ctl.log.recs[|old(ctl.log.recs)|];
                   Records(i, rec.error, rec) && (Benign(i, w) ==> rec.result.outcome == OutcomePass)
      ensures ran && !appended ==> ctl.log.recs == old(ctl.log.recs) && ctl.log.writeFailed
    {
      ran := requested;
      if !ran {
        ran := ctl.BeginAutoRun(canAppend);
      }
      if ran {
        ghost var passed;
        var ret;
        ret, passed := RunJob(i, w, cancel, lateCancel, appended);
      }
    }
  }
}
