/**
 * Programming stages (main/prog/includes/offline_flasher.hpp) and the run bookkeeping of the
 * job controller (main/prog/job_controller.cpp), as step functions on its fields.
 */
module Controller {
  import opened Base

  datatype PgState =
    | Error | LoadAsset | PreProgram | Detect | Erase | Program | Verify | SelfTest | PostProgram
    | Done | Cancelled

  datatype ReportedStage =
    | StageNone | StageLoad | StagePreProgram | StageDetect | StageErase | StageProgram | StageVerify
    | StageSelfTest | StagePostProgram

  /** check_cancel's "not finished": a stage that still has work to do. */
  predicate Working(st: PgState) {
    !st.Error? && !st.Done? && !st.Cancelled?
  }

  /** Where a stage goes when it succeeds. */
  function Succ(st: PgState): PgState
    requires Working(st)
  {
    match st
    case LoadAsset => PreProgram
    case PreProgram => Detect
    case Detect => Erase
    case Erase => Program
    case Program => Verify
    case Verify => SelfTest
    case SelfTest => PostProgram
    case PostProgram => Done
  }

  /** Number of handle_states calls that can still follow. */
  function Rank(st: PgState): nat {
    match st
    case LoadAsset => 9
    case PreProgram => 8
    case Detect => 7
    case Erase => 6
    case Program => 5
    case Verify => 4
    case SelfTest => 3
    case PostProgram => 2
    case _ => 1
  }

  /** The stages of a run. */
  const ORDER: seq<PgState> := [LoadAsset, PreProgram, Detect, Erase, Program, Verify, SelfTest, PostProgram]

  /** The stages that precede st in a run, in order. */
  function StagesBefore(st: PgState): seq<PgState> {
    ORDER[..9 - Rank(st)]
  }

  /** Success moves through exactly that order. */
  lemma StagesInOrder(st: PgState)
    requires Working(st)
    ensures StagesBefore(Succ(st)) == StagesBefore(st) + [st]
    ensures StagesBefore(Done) == ORDER
  {
    assert ORDER[9 - Rank(st)] == st;
  }

  /** What is reported for each of them. */
  const REPORTED: seq<ReportedStage> := [
    StageLoad, StagePreProgram, StageDetect, StageErase, StageProgram, StageVerify, StageSelfTest, StagePostProgram]

  /** Each stage is reported under its own name, and nothing else under any of them. */
  lemma ReportedStages(st: PgState)
    ensures Working(st) ==> 9 - Rank(st) < 8 && ORDER[9 - Rank(st)] == st && ToStage(st) == REPORTED[9 - Rank(st)]
    ensures !Working(st) <==> ToStage(st) == StageNone
  {
  }

  function ToStage(failed: PgState): ReportedStage {
    match failed
    case LoadAsset => StageLoad
    case PreProgram => StagePreProgram
    case Detect => StageDetect
    case Erase => StageErase
    case Program => StageProgram
    case Verify => StageVerify
    case SelfTest => StageSelfTest
    case PostProgram => StagePostProgram
    case _ => StageNone
  }

  datatype Trigger = Manual | AutoOnDetect
  datatype Outcome = OutcomeNone | OutcomePass | OutcomeFail | OutcomeCancelled
  datatype RunResult = RunResult(runId: uint32, outcome: Outcome, failedStage: ReportedStage)
  datatype RunRecord = RunRecord(result: RunResult, trigger: Trigger, error: Err, jobSha: Digest)

  datatype Ctl = Ctl(
    running: bool, trigger: Trigger, currentTrigger: Trigger, lastRunId: uint32, cancel: bool, last: RunResult)

  const CTL_AT_BOOT := Ctl(false, Manual, Manual, 0, false, RunResult(0, OutcomeNone, StageNone))

  /** A stage is named exactly for a run that did not pass. */
  predicate ResultOk(r: RunResult) {
    r.failedStage == StageNone <==> r.outcome == OutcomeNone || r.outcome == OutcomePass
  }

  function StartRun(c: Ctl, t: Trigger): Ctl {
    c.(running := true, currentTrigger := t, lastRunId := Wrap(c.lastRunId + 1), cancel := false)
  }

  function CancelRun(c: Ctl, id: uint32): Ctl {
    if c.running && (id == 0 || id == c.lastRunId) then c.(cancel := true) else c
  }

  /** First critical section of finish_run. */
  function SetResult(c: Ctl, ret: Err, failed: PgState): Ctl {
    c.(last := if ret == Ok then RunResult(c.lastRunId, OutcomePass, StageNone)
               else RunResult(c.lastRunId, if c.cancel then OutcomeCancelled else OutcomeFail, ToStage(failed)))
  }

  function RecordOf(c: Ctl, ret: Err, jobSha: Digest): RunRecord {
    RunRecord(c.last, c.currentTrigger, ret, jobSha)
  }

  /** Second critical section of finish_run. */
  function EndRun(c: Ctl): Ctl {
    c.(running := false, cancel := false)
  }

  /** What the log module remembers within one boot. */
  datatype Log = Log(failed: bool, recs: seq<RunRecord>)

  predicate HasSpace(log: Log, canAppend: bool) { !log.failed && canAppend }

  function AddRun(log: Log, rec: RunRecord, appended: bool): Log {
    if appended then log.(recs := log.recs + [rec]) else log.(failed := true)
  }
}
