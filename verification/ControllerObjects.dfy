/**
 * The production log and the job controller as objects. Each method is one call made with the
 * mutex free and is proved against the step functions that RunProtocol interleaves.
 */
module ControllerObjects {
  import opened Base
  import opened Jobs
  import opened Assets
  import opened AssetObjects
  import opened Controller

  class ProgLog {
    var writeFailed: bool
    var recs: seq<RunRecord>

    ghost function View(): Log
      reads this
    {
      Log(writeFailed, recs)
    }

    constructor ()
      ensures View() == Log(false, [])
    {
      writeFailed, recs := false, [];
    }

    method CheckSpace(canAppend: bool) returns (r: Err)
      ensures r == Ok <==> HasSpace(View(), canAppend)
      ensures r == Fail <==> writeFailed
      ensures r == NoMem <==> !writeFailed && !canAppend
    {
      if writeFailed {
        return Fail;
      }
      r := if canAppend then Ok else NoMem;
    }

    method Append(rec: RunRecord, appended: bool)
      modifies this
      ensures View() == AddRun(old(View()), rec, appended)
    {
      if appended {
        recs := recs + [rec];
      } else {
        writeFailed := true;
      }
    }
  }

  class JobController {
    const assets: AssetManager
    const store: AssetStore
    const log: ProgLog
    var running: bool
    var trigger: Trigger
    var currentTrigger: Trigger
    var lastRunId: uint32
    var cancelFlag: bool
    var lastResult: RunResult

    ghost function View(): Ctl
      reads this
    {
      Ctl(running, trigger, currentTrigger, lastRunId, cancelFlag, lastResult)
    }

    /** A cancel belongs to the run in progress, and the last result names a stage exactly if it is a failure. */
    ghost predicate Valid()
      reads this
    {
      (cancelFlag ==> running) && ResultOk(lastResult)
    }

    constructor (assets: AssetManager, store: AssetStore, log: ProgLog, stored: Trigger)
      ensures this.assets == assets && this.store == store && this.log == log
      ensures Valid() && View() == CTL_AT_BOOT.(trigger := stored)
    {
      this.assets, this.store, this.log := assets, store, log;
      running, trigger, currentTrigger, lastRunId := false, stored, Manual, 0;
      cancelFlag, lastResult := false, RunResult(0, OutcomeNone, StageNone);
    }

    /**
     * Not all-or-nothing: the job can be activated although saving the trigger then fails. An
     * unknown trigger value, here None, is refused first.
     */
    method SetJob(sha: Digest, newTrigger: Option<Trigger>, af: ActivateFault, saved: Err) returns (r: Err)
      requires Valid() && assets.Valid() && assets.BoundedDecoder()
      modifies this, assets, assets.fs, assets.cfg, assets.cfg.ramRegions, assets.cfg.images, assets.cfg.tests
      ensures Valid() && assets.Valid()
      ensures newTrigger.None? || old(running) ==>
                && r == (if newTrigger.None? then InvalidArg else NotFinished) && View() == old(View())
                && assets.View() == old(assets.View()) && assets.fs.files == old(assets.fs.files)
      ensures newTrigger.Some? && !old(running) ==>
                var a := Activate(assets.env, old(assets.View()), old(assets.fs.files), sha, af);
                && assets.View() == a.m && assets.fs.files == a.fs
                && r == (if a.err == Ok then saved else a.err)
                && View() == (if r == Ok then old(View()).(trigger := newTrigger.value) else old(View()))
    {
      if newTrigger.None? {
        return InvalidArg;
      }
      if running {
        return NotFinished;
      }
      r := assets.ActivateStaged(sha, af);
      if r == Ok {
        r := saved;
      }
      if r == Ok {
        trigger := newTrigger.value;
      }
    }

    method CommitAssetUpload(cf: CommitFault) returns (r: Err)
      requires UploadInv(store.View())
      modifies store, store.fs
      ensures UploadInv(store.View())
      ensures if running then r == NotFinished && store.View() == old(store.View())
              else Out(r, store.View()) == Commit(store.sha, old(store.View()), cf)
    {
      if running {
        return NotFinished;
      }
      r := store.CommitUpload(cf);
    }

    method StartRunLocked(t: Trigger)
      requires Valid() && !running
      modifies this
      ensures Valid() && View() == StartRun(old(View()), t)
    {
      running, currentTrigger, lastRunId, cancelFlag := true, t, Wrap(lastRunId + 1), false;
    }

    /** A refused request leaves the controller alone; an admitted one owns a fresh id and no cancel. */
    method RequestOneRun(canAppend: bool) returns (r: Err, runId: uint32)
      requires Valid()
      modifies this
      ensures Valid() && (r == Ok <==> !old(running) && assets.job.Some? && HasSpace(log.View(), canAppend))
      ensures old(running) <==> r == NotFinished
      ensures r != Ok ==> View() == old(View())
      ensures r == Ok ==>
                running && !cancelFlag && runId == lastRunId == Wrap(old(lastRunId) + 1)
                    && View() == StartRun(old(View()), Manual)
    {
      runId := 0;
      if running {
        return NotFinished, 0;
      } else if assets.job.None? {
        return NotFound, 0;
      }
      r := log.CheckSpace(canAppend);
      if r == Ok {
        StartRunLocked(Manual);
        runId := lastRunId;
      }
    }

    method BeginAutoRun(canAppend: bool) returns (start: bool)
      requires Valid()
      modifies this
      ensures Valid()
      ensures start <==>
                && !old(running) && old(trigger) == AutoOnDetect && assets.job.Some?
                && HasSpace(log.View(), canAppend)
      ensures !start ==> View() == old(View())
      ensures start ==>
                running && !cancelFlag && lastRunId == Wrap(old(lastRunId) + 1)
                    && View() == StartRun(old(View()), AutoOnDetect)
    {
      start := !running && trigger == AutoOnDetect && assets.job.Some?;
      if start {
        var space := log.CheckSpace(canAppend);
        start := space == Ok;
      }
      if start {
        StartRunLocked(AutoOnDetect);
      }
    }

    method Cancel(id: uint32)
      requires Valid()
      modifies this
      ensures Valid() && View() == CancelRun(old(View()), id)
      ensures cancelFlag == (old(cancelFlag) || (running && (id == 0 || id == lastRunId)))
    {
      if running && (id == 0 || id == lastRunId) {
        cancelFlag := true;
      }
    }

    /** First critical section of finish_run. */
    method CloseResult(ret: Err, failed: PgState)
      requires Valid() && (ret != Ok ==> Working(failed))
      modifies this
      ensures Valid() && View() == SetResult(old(View()), ret, failed)
    {
      if ret == Ok {
        lastResult := RunResult(lastRunId, OutcomePass, StageNone);
      } else {
        lastResult := RunResult(lastRunId, if cancelFlag then OutcomeCancelled else OutcomeFail, ToStage(failed));
      }
    }

    /**
     * Both critical sections, with the record and possibly a late cancel between them. The
     * outcome is decided by the first section alone, exactly one record carries it together
     * with the hash of the job, and the late cancel reaches neither this run nor the next.
     */
    method FinishRun(ret: Err, failed: PgState, appended: bool, lateCancel: bool)
      requires Valid() && running && (ret != Ok ==> Working(failed))
      modifies this, log
      ensures Valid() && !running && !cancelFlag && lastRunId == old(lastRunId) && trigger == old(trigger)
      ensures lastResult.runId == lastRunId && (lastResult.outcome == OutcomePass <==> ret == Ok)
      ensures lastResult.outcome == OutcomeCancelled <==> ret != Ok && old(cancelFlag)
      ensures lastResult.outcome != OutcomeNone && (ret != Ok ==> lastResult.failedStage == ToStage(failed))
      ensures appended ==>
                log.recs == old(log.recs) + [RunRecord(lastResult, old(currentTrigger), ret, assets.activeSha)]
                    && log.writeFailed == old(log.writeFailed)
      ensures !appended ==> log.recs == old(log.recs) && log.writeFailed
    {
      CloseResult(ret, failed);
      if lateCancel {
        Cancel(0);
      }
      log.Append(RunRecord(lastResult, currentTrigger, ret, assets.activeSha), appended);
      running, cancelFlag := false, false;
    }
  }
}
