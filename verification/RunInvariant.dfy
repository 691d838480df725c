/** The inductive invariant of RunProtocol, by concern, and its preservation by every step. */
module RunInvariant {
  import opened Base
  import opened Jobs
  import opened Assets
  import opened Controller
  import opened RunProtocol

  // ---- mutual exclusion and run tokens -----------------------------------

  predicate SidpInside(sp: SidpPc) { sp.SHolds? || sp.SAdmitted? || sp.SSaveTrigger? || sp.SRelease? }

  predicate ProgInside(pp: ProgPc) {
    pp.PAutoHolds? || pp.PAutoAdmitted? || pp.PAutoRelease? || pp.PEndHolds? || pp.PEndRelease? || pp.PCloseHolds?
        || pp.PCloseRelease?
  }

  /** The three places a run token can be. */
  function SidpToken(sp: SidpPc): nat { if sp == SRelease(true) || sp.SSignal? then 1 else 0 }

  function BitToken(runBit: bool): nat { if runBit then 1 else 0 }

  predicate Begun(pp: ProgPc) {
    pp.PTop? || pp.PHash? || pp.PBusy? || pp.PCompare? || pp.PEndWant? || pp.PEndHolds? || pp.PEndRelease?
        || pp.PRecord?
    || pp.PCloseWant? || pp.PCloseHolds?
  }

  function ProgToken(pp: ProgPc): nat { if pp == PAutoRelease(true) || pp.POwn? || Begun(pp) then 1 else 0 }

  function Tokens(s: Sys): nat { SidpToken(s.sp) + BitToken(s.runBit) + ProgToken(s.pp) }

  predicate MutexInv(s: Sys) {
    && (s.owner == Some(Sidp) <==> SidpInside(s.sp))
    && (s.owner == Some(Prog) <==> ProgInside(s.pp))
  }

  predicate TokenInv(s: Sys) {
    && Tokens(s) == (if s.ctl.running then 1 else 0)
    && (s.sp.SAdmitted? || s.sp.SSaveTrigger? || s.pp.PAutoAdmitted? ==> !s.ctl.running)
    && (s.sp.SAdmitted? ==> !s.sp.op.CancelRequest?)
    && (s.ctl.cancel ==> s.ctl.running)
  }

  // ---- accounting --------------------------------------------------------

  /** A run that was admitted but whose record has not been attempted yet. */
  predicate Unrecorded(s: Sys) { s.ctl.running && !s.pp.PCloseWant? && !s.pp.PCloseHolds? }

  function Count(b: bool): nat { if b then 1 else 0 }

  /** Every admitted run has begun exactly once, except the one whose token is still on its way. */
  predicate StartInv(s: Sys) {
    && s.started == s.executed + Tokens(s) - Count(Begun(s.pp))
    && s.ctl.lastRunId == Wrap(s.started)
  }

  predicate LogInv(s: Sys) {
    && s.started == |s.log.recs| + Count(Unrecorded(s)) + Count(s.log.failed)
    && (s.log.failed ==> !Unrecorded(s) && s.sp != SAdmitted(RequestRun) && !s.pp.PAutoAdmitted?)
    && (forall k :: 0 <= k < |s.log.recs| ==> s.log.recs[k].result.runId == Wrap(k + 1))
  }

  // ---- stages and results ------------------------------------------------

  predicate StageInv(s: Sys) {
    && (s.pp.PTop? ==> s.pp.st != Cancelled && (if s.pp.st == Error then Working(s.failed) else s.failed == Done))
    && (s.pp.PBusy? ==> Working(s.pp.st) && s.pp.st != LoadAsset && s.failed == Done)
    && (s.pp.PHash? || s.pp.PCompare? ==> s.failed == Done)
    && (s.pp.PEndWant? || s.pp.PEndHolds? || s.pp.PEndRelease? || s.pp.PRecord? ==>
          if s.pp.ret == Ok then s.failed == Done else Working(s.failed))
    && (s.pp.PEndRelease? || s.pp.PRecord? ==>
          && s.ctl.last.runId == s.ctl.lastRunId
          && (s.ctl.last.outcome == OutcomePass <==> s.pp.ret == Ok)
          && s.ctl.last.outcome != OutcomeNone
          && s.ctl.last.failedStage == ToStage(s.failed))
  }

  // ---- assets ------------------------------------------------------------

  ghost predicate AssetInv(env: Env, s: Sys) {
    && UploadInv(s.st)
    && ActiveInv(env, s.mgr, s.st.fs)
    && (s.ctl.running || s.sp == SAdmitted(RequestRun) || s.pp.PAutoAdmitted? ==> s.mgr.job.Some?)
  }

  // ---- what the run has established about files and flash ----------------

  /** Pinned files are never partial uploads. The firmware does not check ESP32 image paths. */
  ghost predicate SafePins(job: Job) {
    forall k :: 0 <= k < |Pins(job)| ==> !IsPartPath(Pins(job)[k].path)
  }

  /** Every pinned file has a name the store accepts, so it is no partial upload under any spelling. */
  ghost predicate NamedPins(job: Job) {
    forall k :: 0 <= k < |Pins(job)| ==> IsInstallPath(Pins(job)[k].path)
  }

  ghost predicate IsInstallPath(p: string) { exists n :: ValidName(n) && p == InstallPath(n) }

  lemma NamedPinsAreSafe(job: Job)
    requires NamedPins(job)
    ensures SafePins(job)
  {
    forall k | 0 <= k < |Pins(job)|
      ensures !IsPartPath(Pins(job)[k].path)
    {
      assert IsInstallPath(Pins(job)[k].path);
      var n :| ValidName(n) && Pins(job)[k].path == InstallPath(n);
      forall m | ValidName(m)
        ensures PartPath(m) != InstallPath(n)
      {
        PartNeverInstalled(m, n);
      }
    }
  }

  predicate PinOk(env: Env, fs: Files, pin: Pin) { pin.path in fs && env.sha(fs[pin.path]) == pin.sha }

  /** The hash check of LOAD_ASSET is behind us. */
  predicate PastLoad(pp: ProgPc) {
    || (pp.PTop? && pp.st != LoadAsset && pp.st != Error)
    || (pp.PBusy? && pp.st != LoadAsset)
    || pp.PCompare?
  }

  /** Flash holds the whole file, padded, where the job wants it. */
  predicate InFlash(s: Sys, pin: Pin) {
    |s.flash| == U32 && pin.path in s.st.fs && Read(s.flash, pin.offset, |Padded(s.st.fs[pin.path])|)
        == Padded(s.st.fs[pin.path])
  }

  predicate LoadInv(env: Env, s: Sys)
    requires s.mgr.job.Some?
  {
    var pins := Pins(s.mgr.job.value.job);
    && (PastLoad(s.pp) ==> forall k :: 0 <= k < |pins| ==> PinOk(env, s.st.fs, pins[k]))
    && (s.pp.PHash? ==>
          && s.pp.k < |pins|
          && (forall k :: 0 <= k < s.pp.k ==> PinOk(env, s.st.fs, pins[k]))
          && (pins[s.pp.k].path in s.st.fs ==> s.pp.got <= s.st.fs[pins[s.pp.k].path])
          && (s.pp.got != [] ==> pins[s.pp.k].path in s.st.fs))
  }

  predicate CompareInv(s: Sys)
    requires s.mgr.job.Some?
  {
    var job := s.mgr.job.value.job;
    var pins := Pins(job);
    && |s.flash| == U32
    && ((s.pp == PTop(Verify) || s.pp.PCompare?) && IsCortexM(job) ==>
          FIRMWARE_PATH in s.st.fs && s.written == |s.st.fs[FIRMWARE_PATH]| && s.written % 4 == 0)
    && (s.pp.PBusy? && s.pp.st == Verify ==> pins == [])
    && (s.pp.PCompare? ==>
          && s.pp.k < |pins|
          && (forall k :: 0 <= k < s.pp.k ==> InFlash(s, pins[k]))
          && (s.pp.cursor > 0 ==>
                && pins[s.pp.k].path in s.st.fs
                && s.pp.cursor < |s.st.fs[pins[s.pp.k].path]|
                && Read(s.flash, pins[s.pp.k].offset, s.pp.cursor) == s.st.fs[pins[s.pp.k].path][..s.pp.cursor]))
  }

  /** Holds of the runs of jobs with safe pins; about the others it says nothing. */
  ghost predicate RunInv(env: Env, s: Sys) {
    s.mgr.job.Some? && SafePins(s.mgr.job.value.job) && Begun(s.pp) ==> LoadInv(env, s) && CompareInv(s)
  }

  /** The loops over pinned files stay inside the job. */
  predicate BoundsInv(s: Sys) {
    && |s.flash| == U32
    && (s.pp.PHash? || s.pp.PCompare? ==> s.mgr.job.Some? && s.pp.k < |Pins(s.mgr.job.value.job)|)
  }

  ghost predicate Inv(env: Env, s: Sys) {
    MutexInv(s) && TokenInv(s) && StartInv(s) && LogInv(s) && StageInv(s) && AssetInv(env, s) && BoundsInv(s)
  }

  // ---- preservation ------------------------------------------------------

  lemma InitialInv(env: Env, s: Sys)
    requires Initial(env, s)
    ensures Inv(env, s) && RunInv(env, s)
  {
    var readable :| s.mgr == LoadAtBoot(env, s.st.fs, readable);
    BootEstablishesActive(env, s.st.fs, readable);
  }

  lemma SidpMutex(env: Env, s: Sys, l: Label)
    requires MutexInv(s) && ExecSidp(env, s, l).Some?
    ensures MutexInv(ExecSidp(env, s, l).value)
  {
  }

  lemma SidpTokens(env: Env, s: Sys, l: Label)
    requires MutexInv(s) && TokenInv(s) && ExecSidp(env, s, l).Some?
    ensures TokenInv(ExecSidp(env, s, l).value)
  {
  }

  lemma SidpStarts(env: Env, s: Sys, l: Label)
    requires MutexInv(s) && TokenInv(s) && StartInv(s) && ExecSidp(env, s, l).Some?
    ensures StartInv(ExecSidp(env, s, l).value)
  {
    var s' := ExecSidp(env, s, l).value;
    WrapAdd(s.started, 1);
    SidpCounts(env, s, l);
    assert Tokens(s') - Tokens(s) == s'.started - s.started;
  }

  /** Only an admitted request starts a run, and its token is the service task's. */
  lemma SidpCounts(env: Env, s: Sys, l: Label)
    requires TokenInv(s) && ExecSidp(env, s, l).Some?
    ensures var s' := ExecSidp(env, s, l).value;
            && s'.pp == s.pp && s'.executed == s.executed
            && SidpToken(s'.sp) + BitToken(s'.runBit) - SidpToken(s.sp) - BitToken(s.runBit) == s'.started - s.started
            && s'.ctl.lastRunId == (if s'.started == s.started then s.ctl.lastRunId else Wrap(s.ctl.lastRunId + 1))
            && s.started <= s'.started <= s.started + 1
  {
  }

  lemma SidpLog(env: Env, s: Sys, l: Label)
    requires MutexInv(s) && TokenInv(s) && LogInv(s) && ExecSidp(env, s, l).Some?
    ensures LogInv(ExecSidp(env, s, l).value)
  {
    assert ExecSidp(env, s, l).value.log == s.log;
  }

  lemma SidpStages(env: Env, s: Sys, l: Label)
    requires MutexInv(s) && TokenInv(s) && StageInv(s) && ExecSidp(env, s, l).Some?
    ensures StageInv(ExecSidp(env, s, l).value)
  {
  }

  lemma ProgMutex(s: Sys, l: Label)
    requires MutexInv(s) && ExecProg(s, l).Some?
    ensures MutexInv(ExecProg(s, l).value)
  {
  }

  lemma ProgTokens(s: Sys, l: Label)
    requires MutexInv(s) && TokenInv(s) && ExecProg(s, l).Some?
    ensures TokenInv(ExecProg(s, l).value)
  {
  }

  lemma ProgStarts(s: Sys, l: Label)
    requires MutexInv(s) && TokenInv(s) && StartInv(s) && ExecProg(s, l).Some?
    ensures StartInv(ExecProg(s, l).value)
  {
    WrapAdd(s.started, 1);
    ProgCounts(s, l);
  }

  /** Tokens outside the service task whose run has not begun. */
  function Travelling(s: Sys): int { BitToken(s.runBit) + ProgToken(s.pp) - Count(Begun(s.pp)) }

  /** An automatic run is admitted by its own task; a run that ends gives its token back. */
  lemma ProgCounts(s: Sys, l: Label)
    requires TokenInv(s) && ExecProg(s, l).Some?
    ensures var s' := ExecProg(s, l).value;
            && s'.sp == s.sp && s'.executed == s.executed
            && Travelling(s') - Travelling(s) == s'.started - s.started
            && s'.ctl.lastRunId == (if s'.started == s.started then s.ctl.lastRunId else Wrap(s.ctl.lastRunId + 1))
            && s.started <= s'.started <= s.started + 1
  {
  }

  lemma ProgLog(s: Sys, l: Label)
    requires MutexInv(s) && TokenInv(s) && StartInv(s) && LogInv(s) && StageInv(s) && ExecProg(s, l).Some?
    ensures LogInv(ExecProg(s, l).value)
  {
  }

  lemma ProgStages(s: Sys, l: Label)
    requires MutexInv(s) && TokenInv(s) && StageInv(s) && ExecProg(s, l).Some?
    ensures StageInv(ExecProg(s, l).value)
  {
  }

  /** A stage step touches nothing but the run's own variables, and stays inside the run. */
  predicate WithinRun(s: Sys, s': Sys) {
    && s' == s.(pp := s'.pp, failed := s'.failed, written := s'.written, flash := s'.flash, executed := s'.executed)
    && Begun(s'.pp) && !ProgInside(s'.pp) && !s'.pp.PRecord? && !s'.pp.PCloseWant?
    && !ProgInside(s.pp) && !s.pp.PCloseWant? && !s.pp.PAutoAdmitted?
    && (s.pp.POwn? || Begun(s.pp))
    && s'.executed == s.executed + Count(s.pp.POwn?)
  }

  lemma EnterFrame(s: Sys)
    requires s.pp.PTop?
    ensures WithinRun(s, Enter(s)) && (StageInv(s) ==> StageInv(Enter(s)))
  {
  }

  lemma HashFrame(env: Env, s: Sys, job: Job, readable: bool)
    requires s.pp.PHash? && s.pp.k < |Pins(job)|
    ensures var s' := HashNext(env, s, job, readable); WithinRun(s, s') && (StageInv(s) ==> StageInv(s'))
  {
    var s' := HashNext(env, s, job, readable);
    assert s'.pp.PHash? || s' == StageFailed(s, LoadAsset) || s' == s.(pp := PTop(PreProgram));
  }

  lemma FinishFrame(s: Sys, ok: bool, flash': Bytes)
    requires s.pp.PBusy? && Working(s.pp.st)
    ensures WithinRun(s, FinishStage(s, ok, flash')) && (StageInv(s) ==> StageInv(FinishStage(s, ok, flash')))
  {
  }

  lemma CompareFrame(s: Sys, job: Job, readOk: bool)
    requires s.pp.PCompare? && s.pp.k < |Pins(job)| && |s.flash| == U32
    ensures var s' := CompareNext(s, job, readOk); WithinRun(s, s') && (StageInv(s) ==> StageInv(s'))
  {
    var s' := CompareNext(s, job, readOk);
    assert s'.pp.PCompare? || s' == StageFailed(s, Verify) || s' == s.(pp := PTop(SelfTest));
  }

  lemma RunFrame(env: Env, s: Sys, l: Label)
    requires ExecRun(env, s, l).Some?
    ensures var s' := ExecRun(env, s, l).value; WithinRun(s, s') && (StageInv(s) ==> StageInv(s'))
  {
    match l
    case LEnter => EnterFrame(s);
    case LHash(readable) => HashFrame(env, s, s.mgr.job.value.job, readable);
    case LStage(ok, flash') => FinishFrame(s, ok, flash');
    case LCompare(readOk) => CompareFrame(s, s.mgr.job.value.job, readOk);
    case _ =>
  }

  lemma RunBookkeeping(s: Sys, s': Sys)
    requires MutexInv(s) && TokenInv(s) && StartInv(s) && LogInv(s) && WithinRun(s, s')
    ensures MutexInv(s') && TokenInv(s') && StartInv(s') && LogInv(s')
  {
  }

  // ---- assets ------------------------------------------------------------

  lemma SidpAssets(env: Env, s: Sys, l: Label)
    requires MutexInv(s) && TokenInv(s) && AssetInv(env, s) && ExecSidp(env, s, l).Some?
    ensures AssetInv(env, ExecSidp(env, s, l).value)
  {
    if l.LBegin? || l.LWrite? {
      UploadAssets(env, s, l);
    } else if l.LSidpEffect? {
      EffectAssets(env, s, l.cf, l.af);
    } else {
      CallAssets(env, s, l);
    }
  }

  lemma UploadAssets(env: Env, s: Sys, l: Label)
    requires AssetInv(env, s) && (l.LBegin? || l.LWrite?) && ExecSidp(env, s, l).Some?
    ensures AssetInv(env, ExecSidp(env, s, l).value)
  {
    if l.LBegin? {
      UploadKeepsActive(env, s.mgr, s.st, OpBegin(l.name, l.size, l.digest, l.bf));
    } else {
      UploadKeepsActive(env, s.mgr, s.st, OpWrite(l.offset, l.data, l.accepted));
    }
  }

  /** The remaining steps of the service task leave files and job alone, and admit nothing without a job. */
  lemma CallAssets(env: Env, s: Sys, l: Label)
    requires AssetInv(env, s) && !l.LBegin? && !l.LWrite? && !l.LSidpEffect? && ExecSidp(env, s, l).Some?
    ensures AssetInv(env, ExecSidp(env, s, l).value)
  {
    if l.LSidpTest? {
      TestAssets(env, s, l.canAppend);
    } else {
      LockAssets(env, s, l);
    }
  }

  lemma TestAssets(env: Env, s: Sys, canAppend: bool)
    requires AssetInv(env, s) && s.sp.SHolds?
    ensures AssetInv(env, ExecSidp(env, s, LSidpTest(canAppend)).value)
  {
  }

  lemma LockAssets(env: Env, s: Sys, l: Label)
    requires AssetInv(env, s) && (l.LCall? || l.LSidpLock? || l.LSidpSave? || l.LSidpUnlock? || l.LSidpSignal?)
    requires ExecSidp(env, s, l).Some?
    ensures AssetInv(env, ExecSidp(env, s, l).value)
  {
    var s' := ExecSidp(env, s, l).value;
    assert s'.st == s.st && s'.mgr == s.mgr && s'.pp == s.pp && s'.ctl.running == s.ctl.running
        && s'.sp != SAdmitted(RequestRun);
  }

  lemma EffectAssets(env: Env, s: Sys, cf: CommitFault, af: ActivateFault)
    requires MutexInv(s) && TokenInv(s) && AssetInv(env, s) && s.sp.SAdmitted?
    ensures AssetInv(env, ExecSidp(env, s, LSidpEffect(cf, af)).value)
  {
    match s.sp.op
    case SetJob(sha, trigger) =>
      SetJobAssets(env, s.mgr, s.st, sha, af);
      assert !s.pp.PAutoAdmitted? by { assert s.owner == Some(Sidp); }
    case CommitAsset =>
      UploadKeepsActive(env, s.mgr, s.st, OpCommit(cf));
    case RequestRun =>
  }

  /** Activation does not disturb an open upload. */
  lemma SetJobAssets(env: Env, m: Manager, st: Store, sha: Digest, af: ActivateFault)
    requires UploadInv(st) && ActiveInv(env, m, st.fs)
    ensures var r := Activate(env, m, st.fs, sha, af); UploadInv(st.(fs := r.fs)) && ActiveInv(env, r.m, r.fs)
  {
    ActivateKeeps(env, m, st.fs, sha, af);
    if st.up.Open? {
      var part := PartPath(st.up.name);
      assert IsPartPath(part);
      FixedPathsNotPart(JOB_PATH);
      FixedPathsNotPart(STAGED_JOB_PATH);
      assert SameAt(st.fs, Activate(env, m, st.fs, sha, af).fs, part);
    }
  }

  lemma ProgAssets(env: Env, s: Sys, l: Label)
    requires MutexInv(s) && TokenInv(s) && AssetInv(env, s) && ExecProg(s, l).Some?
    ensures AssetInv(env, ExecProg(s, l).value)
  {
    var s' := ExecProg(s, l).value;
    assert s'.st == s.st && s'.mgr == s.mgr;
  }

  /**
   * While a run is admitted, no step of the service task changes the job, and the only files
   * it can touch are partial uploads.
   */
  lemma AssetsFrozen(env: Env, s: Sys, l: Label)
    requires MutexInv(s) && TokenInv(s) && UploadInv(s.st) && s.ctl.running && ExecSidp(env, s, l).Some?
    ensures var s' := ExecSidp(env, s, l).value;
            && s'.mgr == s.mgr && s'.pp == s.pp && s'.flash == s.flash && s'.written == s.written
            && s'.started == s.started && s'.ctl.running
            && forall p :: !IsPartPath(p) ==> SameAt(s.st.fs, s'.st.fs, p)
  {
    match l
    case LBegin(name, size, digest, f) => BeginKeeps(env.sha, s.st, name, size, digest, f);
    case LWrite(offset, data, accepted) => WriteKeeps(s.st, offset, data, accepted);
    case _ =>
  }

  lemma SidpBounds(env: Env, s: Sys, l: Label)
    requires MutexInv(s) && TokenInv(s) && UploadInv(s.st) && BoundsInv(s) && ExecSidp(env, s, l).Some?
    ensures BoundsInv(ExecSidp(env, s, l).value)
  {
    if Begun(s.pp) {
      AssetsFrozen(env, s, l);
    } else {
      SidpLeavesRunAlone(env, s, l);
    }
  }

  lemma ProgBounds(s: Sys, l: Label)
    requires BoundsInv(s) && ExecProg(s, l).Some?
    ensures BoundsInv(ExecProg(s, l).value)
  {
    var s' := ExecProg(s, l).value;
    assert s'.flash == s.flash && !s'.pp.PHash? && !s'.pp.PCompare?;
  }

  lemma HashBounds(env: Env, s: Sys, job: Job, readable: bool)
    requires s.pp.PHash? && s.pp.k < |Pins(job)|
    ensures var s' := HashNext(env, s, job, readable);
            !s'.pp.PCompare? && (s'.pp.PHash? ==> s'.pp.k < |Pins(job)|) && s'.mgr == s.mgr && s'.flash == s.flash
  {
  }

  lemma CompareBounds(s: Sys, job: Job, readOk: bool)
    requires s.pp.PCompare? && s.pp.k < |Pins(job)| && |s.flash| == U32
    ensures var s' := CompareNext(s, job, readOk);
            !s'.pp.PHash? && (s'.pp.PCompare? ==> s'.pp.k < |Pins(job)|) && s'.mgr == s.mgr && s'.flash == s.flash
  {
  }

  lemma EnterBounds(s: Sys)
    requires BoundsInv(s) && s.pp.PTop?
    ensures BoundsInv(Enter(s))
  {
  }

  lemma RunBounds(env: Env, s: Sys, l: Label)
    requires BoundsInv(s) && ExecRun(env, s, l).Some?
    ensures BoundsInv(ExecRun(env, s, l).value)
  {
    match l
    case LEnter => EnterBounds(s);
    case LHash(readable) => HashBounds(env, s, s.mgr.job.value.job, readable);
    case LCompare(readOk) => CompareBounds(s, s.mgr.job.value.job, readOk);
    case _ =>
  }

  // ---- the run's knowledge about files and flash -------------------------

  /** A Cortex-M job pins exactly the firmware. */
  lemma CortexPins(env: Env, s: Sys)
    requires AssetInv(env, s) && s.mgr.job.Some?
    ensures IsCortexM(s.mgr.job.value.job) ==>
              |Pins(s.mgr.job.value.job)| == 1 && Pins(s.mgr.job.value.job)[0].path == FIRMWARE_PATH
  {
    var content :| env.sha(content) == s.mgr.activeSha && DecodesTo(env, content, s.mgr.job.value);
  }

  /** What a run knows survives every step that leaves its variables and the pinned files alone. */
  lemma RunInvTransfer(env: Env, s: Sys, s': Sys)
    requires RunInv(env, s) && s'.pp == s.pp && s'.mgr == s.mgr && s'.flash == s.flash && s'.written == s.written
    requires s.mgr.job.Some? && SafePins(s.mgr.job.value.job) ==>
               && (forall k :: 0 <= k < |Pins(s.mgr.job.value.job)| ==>
                     SameAt(s.st.fs, s'.st.fs, Pins(s.mgr.job.value.job)[k].path))
               && SameAt(s.st.fs, s'.st.fs, FIRMWARE_PATH)
    ensures RunInv(env, s')
  {
    if s.mgr.job.Some? && SafePins(s.mgr.job.value.job) && Begun(s.pp) {
      var pins := Pins(s.mgr.job.value.job);
      forall k | 0 <= k < |pins|
        ensures PinOk(env, s.st.fs, pins[k]) ==> PinOk(env, s'.st.fs, pins[k])
        ensures InFlash(s, pins[k]) ==> InFlash(s', pins[k])
      {
      }
    }
  }

  lemma SidpRunInv(env: Env, s: Sys, l: Label)
    requires MutexInv(s) && TokenInv(s) && AssetInv(env, s) && RunInv(env, s) && ExecSidp(env, s, l).Some?
    ensures RunInv(env, ExecSidp(env, s, l).value)
  {
    var s' := ExecSidp(env, s, l).value;
    if Begun(s.pp) {
      AssetsFrozen(env, s, l);
      FixedPathsNotPart(FIRMWARE_PATH);
      RunInvTransfer(env, s, s');
    } else {
      SidpLeavesRunAlone(env, s, l);
    }
  }

  lemma SidpLeavesRunAlone(env: Env, s: Sys, l: Label)
    requires ExecSidp(env, s, l).Some?
    ensures var s' := ExecSidp(env, s, l).value; s'.pp == s.pp && s'.flash == s.flash
  {
  }

  lemma ProgRunInv(env: Env, s: Sys, l: Label)
    requires BoundsInv(s) && RunInv(env, s) && ExecProg(s, l).Some?
    ensures RunInv(env, ExecProg(s, l).value)
  {
    var s' := ExecProg(s, l).value;
    assert s'.flash == s.flash && s'.mgr == s.mgr;
    assert !PastLoad(s'.pp) && !s'.pp.PHash? && !s'.pp.PTop? && !s'.pp.PBusy?;
  }

  lemma EnterRunInv(env: Env, s: Sys)
    requires StageInv(s) && RunInv(env, s) && s.mgr.job.Some? && SafePins(s.mgr.job.value.job) && s.pp.PTop?
    ensures RunInv(env, Enter(s))
  {
    EnterKeepsLoad(env, s);
    EnterKeepsCompare(s);
  }

  lemma EnterKeepsLoad(env: Env, s: Sys)
    requires StageInv(s) && s.mgr.job.Some? && s.pp.PTop? && LoadInv(env, s)
    ensures Enter(s).mgr == s.mgr && LoadInv(env, Enter(s))
  {
    var s' := Enter(s);
    assert s'.st == s.st && s'.mgr == s.mgr;
    assert PastLoad(s'.pp) ==> PastLoad(s.pp) || Pins(s.mgr.job.value.job) == [];
  }

  lemma EnterKeepsCompare(s: Sys)
    requires StageInv(s) && s.mgr.job.Some? && s.pp.PTop? && CompareInv(s)
    ensures Enter(s).mgr == s.mgr && Enter(s).flash == s.flash && CompareInv(Enter(s))
  {
    var s' := Enter(s);
    assert s'.st == s.st && s'.mgr == s.mgr && s'.flash == s.flash && s'.written == s.written;
  }

  lemma HashRunInv(env: Env, s: Sys, readable: bool)
    requires RunInv(env, s) && s.mgr.job.Some? && SafePins(s.mgr.job.value.job) && s.pp.PHash?
    requires s.pp.k < |Pins(s.mgr.job.value.job)|
    ensures RunInv(env, HashNext(env, s, s.mgr.job.value.job, readable))
  {
    var s' := HashNext(env, s, s.mgr.job.value.job, readable);
    HashMoves(env, s, readable);
    assert CompareInv(s');
    HashKeepsLoad(env, s, readable);
  }

  lemma HashMoves(env: Env, s: Sys, readable: bool)
    requires s.mgr.job.Some? && s.pp.PHash? && s.pp.k < |Pins(s.mgr.job.value.job)|
    ensures var s' := HashNext(env, s, s.mgr.job.value.job, readable);
            && s' == s.(pp := s'.pp, failed := s'.failed)
            && (s'.pp.PHash? || s'.pp == PTop(Error) || s'.pp == PTop(PreProgram))
  {
  }

  lemma HashKeepsLoad(env: Env, s: Sys, readable: bool)
    requires s.mgr.job.Some? && LoadInv(env, s) && s.pp.PHash? && s.pp.k < |Pins(s.mgr.job.value.job)|
    ensures var s' := HashNext(env, s, s.mgr.job.value.job, readable); s'.mgr == s.mgr && LoadInv(env, s')
  {
    var path := Pins(s.mgr.job.value.job)[s.pp.k].path;
    HashMoves(env, s, readable);
    if path in s.st.fs && |s.pp.got| < |s.st.fs[path]| {
      HashReads(env, s, readable);
    } else if path in s.st.fs {
      assert s.pp.got == s.st.fs[path];
    }
  }

  /** A read extends what has been hashed of the same file. */
  lemma HashReads(env: Env, s: Sys, readable: bool)
    requires s.mgr.job.Some? && LoadInv(env, s) && s.pp.PHash? && s.pp.k < |Pins(s.mgr.job.value.job)|
    requires var path := Pins(s.mgr.job.value.job)[s.pp.k].path; path in s.st.fs && |s.pp.got| < |s.st.fs[path]|
    ensures var pp' := HashNext(env, s, s.mgr.job.value.job, readable).pp;
            && (pp' == PTop(Error) || (pp'.PHash? && pp'.k == s.pp.k
                  && pp'.got <= s.st.fs[Pins(s.mgr.job.value.job)[s.pp.k].path]))
  {
    var data := s.st.fs[Pins(s.mgr.job.value.job)[s.pp.k].path];
    var n := Min(512, |data| - |s.pp.got|);
    assert s.pp.got + data[|s.pp.got|..|s.pp.got| + n] == data[..|s.pp.got| + n];
  }

  lemma FinishRunInv(env: Env, s: Sys, ok: bool, flash': Bytes)
    requires RunInv(env, s) && s.mgr.job.Some? && SafePins(s.mgr.job.value.job) && s.pp.PBusy?
    requires Working(s.pp.st) && s.pp.st != LoadAsset && |flash'| == U32
    ensures RunInv(env, FinishStage(s, ok, flash'))
  {
  }

  lemma ExpectedShape(job: Job, data: Bytes, cursor: nat)
    requires cursor < |data| && (IsCortexM(job) ==> |data| % 4 == 0)
    ensures var next := cursor + Min(|data| - cursor, BlockSize(job));
            data[..cursor] + Expected(job, data, cursor, |data|) == if next < |data| then data[..next] else Padded(data)
  {
    var next := cursor + Min(|data| - cursor, BlockSize(job));
    assert data[..cursor] + data[cursor..next] == data[..next];
    if next == |data| {
      assert data[..next] == data;
      assert IsCortexM(job) ==> PaddedLen(|data|) == |data|;
    }
  }

  /** One matching block extends the compared prefix; the last one completes the padded image. */
  lemma CompareAdvance(flash: Bytes, offset: uint32, job: Job, data: Bytes, cursor: nat)
    requires |flash| == U32 && cursor < |data| && (IsCortexM(job) ==> |data| % 4 == 0)
    requires Read(flash, offset, cursor) == data[..cursor]
    requires var block := Expected(job, data, cursor, |data|); Read(flash, Wrap(offset + cursor), |block|) == block
    ensures var next := cursor + Min(|data| - cursor, BlockSize(job));
            if next < |data| then Read(flash, offset, next) == data[..next]
            else next == |data| && Read(flash, offset, |Padded(data)|) == Padded(data)
  {
    ReadSplit(flash, offset, cursor, |Expected(job, data, cursor, |data|)|);
    ExpectedShape(job, data, cursor);
  }

  lemma CompareRunInv(env: Env, s: Sys, readOk: bool)
    requires BoundsInv(s) && RunInv(env, s) && s.mgr.job.Some? && SafePins(s.mgr.job.value.job)
    requires s.pp.PCompare? && s.pp.k < |Pins(s.mgr.job.value.job)|
    requires IsCortexM(s.mgr.job.value.job) ==> Pins(s.mgr.job.value.job)[s.pp.k].path == FIRMWARE_PATH
    ensures RunInv(env, CompareNext(s, s.mgr.job.value.job, readOk))
  {
    CompareKeepsLoad(env, s, readOk);
    if CompareNext(s, s.mgr.job.value.job, readOk) != StageFailed(s, Verify) {
      CompareKeepsCompare(env, s, readOk);
    }
  }

  lemma CompareKeepsLoad(env: Env, s: Sys, readOk: bool)
    requires s.mgr.job.Some? && s.pp.PCompare? && s.pp.k < |Pins(s.mgr.job.value.job)| && |s.flash| == U32
    requires LoadInv(env, s)
    ensures var s' := CompareNext(s, s.mgr.job.value.job, readOk);
            s'.mgr == s.mgr && s'.flash == s.flash && LoadInv(env, s')
                && (s' == StageFailed(s, Verify) || s' == s.(pp := s'.pp))
  {
    var s' := CompareNext(s, s.mgr.job.value.job, readOk);
    assert s' == StageFailed(s, Verify) || (s' == s.(pp := s'.pp) && (s'.pp.PCompare? || s'.pp == PTop(SelfTest)));
  }

  lemma CompareKeepsCompare(env: Env, s: Sys, readOk: bool)
    requires BoundsInv(s) && RunInv(env, s) && s.mgr.job.Some? && SafePins(s.mgr.job.value.job)
    requires s.pp.PCompare? && s.pp.k < |Pins(s.mgr.job.value.job)|
    requires IsCortexM(s.mgr.job.value.job) ==> Pins(s.mgr.job.value.job)[s.pp.k].path == FIRMWARE_PATH
    requires CompareNext(s, s.mgr.job.value.job, readOk) != StageFailed(s, Verify)
    ensures CompareNext(s, s.mgr.job.value.job, readOk).mgr == s.mgr
    ensures CompareInv(CompareNext(s, s.mgr.job.value.job, readOk))
  {
    var pins := Pins(s.mgr.job.value.job);
    var s' := CompareNext(s, s.mgr.job.value.job, readOk);
    CompareProgress(env, s, readOk);
    CompareMoves(s, readOk);
    assert InFlash(s, pins[s.pp.k]) || s'.pp == PCompare(s.pp.k, s'.pp.cursor);
    SameInFlash(s, s');
  }

  lemma CompareMoves(s: Sys, readOk: bool)
    requires s.mgr.job.Some? && s.pp.PCompare? && s.pp.k < |Pins(s.mgr.job.value.job)| && |s.flash| == U32
    requires CompareNext(s, s.mgr.job.value.job, readOk) != StageFailed(s, Verify)
    ensures var s' := CompareNext(s, s.mgr.job.value.job, readOk);
            && s' == s.(pp := s'.pp)
            && (|| s'.pp == PTop(SelfTest)
                || (s'.pp.PCompare? && s'.pp.k == s.pp.k && s'.pp.cursor > 0)
                || (s'.pp == PCompare(s.pp.k + 1, 0) && s.pp.k + 1 < |Pins(s.mgr.job.value.job)|))
  {
  }

  lemma SameInFlash(s: Sys, s': Sys)
    requires s'.st == s.st && s'.flash == s.flash && s.mgr.job.Some?
    ensures forall k :: 0 <= k < |Pins(s.mgr.job.value.job)| ==>
              (InFlash(s', Pins(s.mgr.job.value.job)[k]) <==> InFlash(s, Pins(s.mgr.job.value.job)[k]))
  {
  }

  lemma CompareProgress(env: Env, s: Sys, readOk: bool)
    requires BoundsInv(s) && RunInv(env, s) && s.mgr.job.Some? && SafePins(s.mgr.job.value.job)
    requires s.pp.PCompare? && s.pp.k < |Pins(s.mgr.job.value.job)|
    requires IsCortexM(s.mgr.job.value.job) ==> Pins(s.mgr.job.value.job)[s.pp.k].path == FIRMWARE_PATH
    requires CompareNext(s, s.mgr.job.value.job, readOk) != StageFailed(s, Verify)
    ensures var pin := Pins(s.mgr.job.value.job)[s.pp.k];
            var pp' := CompareNext(s, s.mgr.job.value.job, readOk).pp;
            && pin.path in s.st.fs
            && (if pp'.PCompare? && pp'.k == s.pp.k then
                  && pp'.cursor < |s.st.fs[pin.path]|
                  && Read(s.flash, pin.offset, pp'.cursor) == s.st.fs[pin.path][..pp'.cursor]
                else InFlash(s, pin))
  {
    var job := s.mgr.job.value.job;
    var pin := Pins(job)[s.pp.k];
    var data := s.st.fs[pin.path];
    assert CompareLen(s, job, data) == |data|;
    assert s.pp.cursor == 0 ==> Read(s.flash, pin.offset, 0) == data[..0];
    CompareAdvance(s.flash, pin.offset, job, data, s.pp.cursor);
  }
}
