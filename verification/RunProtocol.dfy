/**
 * The SIDP service task and the programming task as interleaved steps over one mutex, one
 * event group, one cancel flag, the asset directory, the active job, the log and the target
 * flash. Every program point at which the other task can observe shared state is a separate
 * program counter; library outcomes and the target are chosen by the label of a step.
 */
module RunProtocol {
  import opened Base
  import opened Jobs
  import opened Assets
  import opened Controller

  datatype Task = Sidp | Prog

  /** Requests served under the controller mutex. */
  datatype LockedOp =
    | SetJob(sha: Digest, trigger: Trigger) | CommitAsset | RequestRun | CancelRequest(id: uint32)

  datatype SidpPc =
    | SIdle
    | SWantLock(op: LockedOp)
    | SHolds(op: LockedOp)              // lock taken, `running` not yet tested
    | SAdmitted(op: LockedOp)           // `running` was false; the effect comes next
    | SSaveTrigger(trigger: Trigger)    // job activated, trigger not yet saved
    | SRelease(started: bool)
    | SSignal                           // unlocked, run bit not yet set

  datatype ProgPc =
    | PWait
    | PAutoWant | PAutoHolds | PAutoAdmitted | PAutoRelease(started: bool)
    | POwn                              // owns a run, flasher not yet initialised
    | PTop(st: PgState)                 // entering handle_states
    | PHash(k: nat, got: Bytes)         // LOAD_ASSET: hashing pinned file k
    | PBusy(st: PgState)                // any other stage, in progress
    | PCompare(k: nat, cursor: nat)     // VERIFY: comparing pinned file k
    | PEndWant(ret: Err) | PEndHolds(ret: Err) | PEndRelease(ret: Err)
    | PRecord(ret: Err)
    | PCloseWant | PCloseHolds | PCloseRelease

  datatype Sys = Sys(
    owner: Option<Task>, sp: SidpPc, pp: ProgPc, runBit: bool, connBit: bool,
    ctl: Ctl, log: Log, st: Store, mgr: Manager,
    failed: PgState, written: nat, flash: Bytes,
    started: nat, executed: nat)        // history: runs admitted, runs begun

  datatype Label =
    | LBegin(name: string, size: nat, digest: Digest, bf: BeginFault)
    | LWrite(offset: nat, data: Bytes, accepted: bool)
    | LCall(op: LockedOp)
    | LSidpLock | LSidpTest(canAppend: bool) | LSidpEffect(cf: CommitFault, af: ActivateFault)
    | LSidpSave(saved: bool) | LSidpUnlock | LSidpSignal
    | LPlug(connected: bool)
    | LTakeBits | LProgLock | LAutoTest(canAppend': bool) | LAutoStart | LProgUnlock
    | LInitRun | LEnter | LHash(readable: bool) | LStage(ok: bool, flash': Bytes) | LCompare(readOk: bool)
    | LSetResult | LRecord(appended: bool) | LEndRun

  // ---- steps of the SIDP service task ------------------------------------

  function ExecSidp(env: Env, s: Sys, l: Label): Option<Sys> {
    match l
    case LBegin(name, size, digest, f) =>
      if !s.sp.SIdle? then None else Some(s.(st := Begin(env.sha, s.st, name, size, digest, f).st))
    case LWrite(offset, data, accepted) =>
      if !s.sp.SIdle? then None else Some(s.(st := Write(s.st, offset, data, accepted).st))
    case LCall(op) =>
      if !s.sp.SIdle? then None else Some(s.(sp := SWantLock(op)))
    case LSidpLock =>
      if s.sp.SWantLock? && s.owner.None? then Some(s.(owner := Some(Sidp), sp := SHolds(s.sp.op))) else None
    case LSidpTest(canAppend) =>
      if !s.sp.SHolds? then None
      else if s.sp.op.CancelRequest? then
        Some(s.(ctl := CancelRun(s.ctl, s.sp.op.id), sp := SRelease(false)))
      else if s.ctl.running then Some(s.(sp := SRelease(false)))
      else if s.sp.op.RequestRun? && (s.mgr.job.None? || !HasSpace(s.log, canAppend)) then
        Some(s.(sp := SRelease(false)))
      else Some(s.(sp := SAdmitted(s.sp.op)))
    case LSidpEffect(cf, af) =>
      if !s.sp.SAdmitted? then None
      else (
        match s.sp.op
        case SetJob(sha, trigger) =>
          var r := Activate(env, s.mgr, s.st.fs, sha, af);
          var next := if r.err == Ok then SSaveTrigger(trigger) else SRelease(false);
          Some(s.(mgr := r.m, st := s.st.(fs := r.fs), sp := next))
        case CommitAsset => Some(s.(st := Commit(env.sha, s.st, cf).st, sp := SRelease(false)))
        case RequestRun => Some(s.(ctl := StartRun(s.ctl, Manual), started := s.started + 1, sp := SRelease(true)))
        case CancelRequest(_) => None
      )
    case LSidpSave(saved) =>
      if !s.sp.SSaveTrigger? then None
      else Some(s.(ctl := if saved then s.ctl.(trigger := s.sp.trigger) else s.ctl, sp := SRelease(false)))
    case LSidpUnlock =>
      if !s.sp.SRelease? then None else Some(s.(owner := None, sp := if s.sp.started then SSignal else SIdle))
    case LSidpSignal =>
      if !s.sp.SSignal? then None else Some(s.(runBit := true, sp := SIdle))
    case _ => None
  }

  // ---- steps of the programming task -------------------------------------

  /** Waiting, admission of automatic runs and the end of a run. */
  function ExecProg(s: Sys, l: Label): Option<Sys> {
    match l
    case LTakeBits =>
      if !s.pp.PWait? || !(s.runBit || s.connBit) then None
      else Some(s.(runBit := false, connBit := false, pp := if s.runBit then POwn else PAutoWant))
    case LProgLock =>
      if s.owner.Some? then None
      else (
        match s.pp
        case PAutoWant => Some(s.(owner := Some(Prog), pp := PAutoHolds))
        case PEndWant(ret) => Some(s.(owner := Some(Prog), pp := PEndHolds(ret)))
        case PCloseWant => Some(s.(owner := Some(Prog), pp := PCloseHolds))
        case _ => None
      )
    case LAutoTest(canAppend) =>
      if !s.pp.PAutoHolds? then None
      else if !s.ctl.running && s.ctl.trigger == AutoOnDetect && s.mgr.job.Some? && HasSpace(s.log, canAppend) then
        Some(s.(pp := PAutoAdmitted))
      else Some(s.(pp := PAutoRelease(false)))
    case LAutoStart =>
      if !s.pp.PAutoAdmitted? then None
      else Some(s.(ctl := StartRun(s.ctl, AutoOnDetect), started := s.started + 1, pp := PAutoRelease(true)))
    case LProgUnlock =>
      (match s.pp
       case PAutoRelease(started) => Some(s.(owner := None, pp := if started then POwn else PWait))
       case PEndRelease(ret) => Some(s.(owner := None, pp := PRecord(ret)))
       case PCloseRelease => Some(s.(owner := None, pp := PWait))
       case _ => None)
    case LSetResult =>
      if !s.pp.PEndHolds? then None
      else Some(s.(ctl := SetResult(s.ctl, s.pp.ret, s.failed), pp := PEndRelease(s.pp.ret)))
    case LRecord(appended) =>
      if !s.pp.PRecord? then None
      else Some(s.(log := AddRun(s.log, RecordOf(s.ctl, s.pp.ret, s.mgr.activeSha), appended), pp := PCloseWant))
    case LEndRun =>
      if !s.pp.PCloseHolds? then None else Some(s.(ctl := EndRun(s.ctl), pp := PCloseRelease))
    case _ => None
  }

  /** Bytes of pinned file k that VERIFY compares. */
  function CompareLen(s: Sys, job: Job, data: Bytes): nat {
    if IsCortexM(job) then s.written else |data|
  }

  /** Block size of the read-back loop of each backend. */
  function BlockSize(job: Job): nat { if IsCortexM(job) then 512 else 4096 }

  /** The next block VERIFY expects in flash: file bytes, then the 0xFF tail after the last one. */
  function Expected(job: Job, data: Bytes, cursor: nat, total: nat): Bytes
    requires cursor <= total <= |data|
  {
    FileBlock(data, cursor, total, BlockSize(job), !IsCortexM(job))
  }

  function StageFailed(s: Sys, st: PgState): Sys { s.(failed := st, pp := PTop(Error)) }

  /** Top of handle_states: the cancel check, then dispatch on the stage. */
  function Enter(s: Sys): Sys
    requires s.pp.PTop?
  {
    var st := s.pp.st;
    if st.Done? then s.(pp := PEndWant(Ok))
    else if st.Error? || st.Cancelled? then s.(pp := PEndWant(Fail))
    else if s.ctl.cancel then s.(failed := st, pp := PEndWant(Fail))
    else if st.LoadAsset? then
      if s.mgr.job.None? then StageFailed(s, LoadAsset)
      else if Pins(s.mgr.job.value.job) == [] then s.(pp := PTop(PreProgram))
      else s.(pp := PHash(0, []))
    else if st.Verify? && s.mgr.job.Some? && Pins(s.mgr.job.value.job) != [] then s.(pp := PCompare(0, 0))
    else s.(pp := PBusy(st))
  }

  /** LOAD_ASSET: one 512-byte read of pinned file k, or the comparison of its finished hash. */
  function HashNext(env: Env, s: Sys, job: Job, readable: bool): Sys
    requires s.pp.PHash? && s.pp.k < |Pins(job)|
  {
    var pin := Pins(job)[s.pp.k];
    if !readable || pin.path !in s.st.fs then StageFailed(s, LoadAsset)
    else
      var data := s.st.fs[pin.path];
      if |s.pp.got| < |data| then
        var n := Min(512, |data| - |s.pp.got|);
        s.(pp := PHash(s.pp.k, s.pp.got + data[|s.pp.got|..|s.pp.got| + n]))
      else if env.sha(s.pp.got) != pin.sha then StageFailed(s, LoadAsset)
      else if s.pp.k + 1 < |Pins(job)| then s.(pp := PHash(s.pp.k + 1, []))
      else s.(pp := PTop(PreProgram))
  }

  /** Any other stage ends: it may have changed the flash in any way, and it may have failed. */
  function FinishStage(s: Sys, ok: bool, flash': Bytes): Sys
    requires s.pp.PBusy? && Working(s.pp.st)
  {
    if !ok then StageFailed(s, s.pp.st).(flash := flash')
    else if s.pp.st.Program? && s.mgr.job.Some? && IsCortexM(s.mgr.job.value.job) then
      // program_file refuses a file whose length is not a positive multiple of four
      if FIRMWARE_PATH !in s.st.fs || |s.st.fs[FIRMWARE_PATH]| < 4 || |s.st.fs[FIRMWARE_PATH]| % 4 != 0 then
        StageFailed(s, Program)
      else s.(pp := PTop(Verify), flash := flash', written := |s.st.fs[FIRMWARE_PATH]|)
    else s.(pp := PTop(Succ(s.pp.st)), flash := flash')
  }

  /** VERIFY: one block of pinned file k against the flash. */
  function CompareNext(s: Sys, job: Job, readOk: bool): Sys
    requires s.pp.PCompare? && s.pp.k < |Pins(job)| && |s.flash| == U32
  {
    var pin := Pins(job)[s.pp.k];
    if !readOk || pin.path !in s.st.fs then StageFailed(s, Verify)
    else
      var data := s.st.fs[pin.path];
      var total := CompareLen(s, job, data);
      if total == 0 || total > |data| || s.pp.cursor >= total then StageFailed(s, Verify)
      else
        var block := Expected(job, data, s.pp.cursor, total);
        var next := s.pp.cursor + Min(total - s.pp.cursor, BlockSize(job));
        if Read(s.flash, Wrap(pin.offset + s.pp.cursor), |block|) != block then StageFailed(s, Verify)
        else if next < total then s.(pp := PCompare(s.pp.k, next))
        else if s.pp.k + 1 < |Pins(job)| then s.(pp := PCompare(s.pp.k + 1, 0))
        else s.(pp := PTop(SelfTest))
  }

  /** The stages of a run, as the stage machine drives them. */
  function ExecRun(env: Env, s: Sys, l: Label): Option<Sys> {
    match l
    case LInitRun =>
      if !s.pp.POwn? then None
      else Some(s.(failed := Done, executed := s.executed + 1, pp := PTop(LoadAsset)))
    case LEnter =>
      if !s.pp.PTop? then None else Some(Enter(s))
    case LHash(readable) =>
      if !s.pp.PHash? || s.mgr.job.None? || s.pp.k >= |Pins(s.mgr.job.value.job)| then None
      else Some(HashNext(env, s, s.mgr.job.value.job, readable))
    case LStage(ok, flash') =>
      if !s.pp.PBusy? || !Working(s.pp.st) || |flash'| != U32 then None else Some(FinishStage(s, ok, flash'))
    case LCompare(readOk) =>
      if !s.pp.PCompare? || s.mgr.job.None? || s.pp.k >= |Pins(s.mgr.job.value.job)| || |s.flash| != U32 then None
      else Some(CompareNext(s, s.mgr.job.value.job, readOk))
    case _ => None
  }

  function Exec(env: Env, s: Sys, l: Label): Option<Sys> {
    match l
    case LPlug(connected) => Some(s.(connBit := connected))
    case LBegin(_, _, _, _) => ExecSidp(env, s, l)
    case LWrite(_, _, _) => ExecSidp(env, s, l)
    case LCall(_) => ExecSidp(env, s, l)
    case LSidpLock => ExecSidp(env, s, l)
    case LSidpTest(_) => ExecSidp(env, s, l)
    case LSidpEffect(_, _) => ExecSidp(env, s, l)
    case LSidpSave(_) => ExecSidp(env, s, l)
    case LSidpUnlock => ExecSidp(env, s, l)
    case LSidpSignal => ExecSidp(env, s, l)
    case LInitRun => ExecRun(env, s, l)
    case LEnter => ExecRun(env, s, l)
    case LHash(_) => ExecRun(env, s, l)
    case LStage(_, _) => ExecRun(env, s, l)
    case LCompare(_) => ExecRun(env, s, l)
    case _ => ExecProg(s, l)
  }

  ghost predicate Initial(env: Env, s: Sys) {
    && s.owner == None && s.sp == SIdle && s.pp == PWait && !s.runBit
    && s.ctl == CTL_AT_BOOT.(trigger := s.ctl.trigger)
    && s.log == Log(false, []) && s.st.up == Idle
    && (exists readable :: s.mgr == LoadAtBoot(env, s.st.fs, readable))
    && |s.flash| == U32 && s.started == 0 && s.executed == 0
  }

  /** A behaviour: any interleaving of steps from a state the boot sequence can leave. */
  ghost predicate Behavior(env: Env, b: seq<Sys>, ls: seq<Label>) {
    && |b| == |ls| + 1
    && Initial(env, b[0])
    && forall i :: 0 <= i < |ls| ==> StepAt(env, b, ls, i)
  }

  ghost predicate StepAt(env: Env, b: seq<Sys>, ls: seq<Label>, i: nat)
    requires |b| == |ls| + 1
  {
    i < |ls| && Exec(env, b[i], ls[i]) == Some(b[i + 1])
  }
}
