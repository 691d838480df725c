/** What holds in every reachable state, and along every behaviour, of RunProtocol. */
module RunTheorems {
  import opened Base
  import opened Jobs
  import opened Assets
  import opened Controller
  import opened RunProtocol
  import opened RunInvariant

  predicate IsRunLabel(l: Label) { l.LInitRun? || l.LEnter? || l.LHash? || l.LStage? || l.LCompare? }

  predicate IsProgLabel(l: Label) {
    l.LTakeBits? || l.LProgLock? || l.LAutoTest? || l.LAutoStart? || l.LProgUnlock? || l.LSetResult? || l.LRecord?
        || l.LEndRun?
  }

  lemma ExecCases(env: Env, s: Sys, l: Label)
    ensures Exec(env, s, l) ==
            if l.LPlug? then Some(s.(connBit := l.connected))
            else if IsRunLabel(l) then ExecRun(env, s, l)
            else if IsProgLabel(l) then ExecProg(s, l)
            else ExecSidp(env, s, l)
  {
  }

  lemma InvStep(env: Env, s: Sys, l: Label, s': Sys)
    requires Inv(env, s) && Exec(env, s, l) == Some(s')
    ensures Inv(env, s')
  {
    ExecCases(env, s, l);
    if l.LPlug? {
    } else if IsRunLabel(l) {
      RunFrame(env, s, l);
      RunBookkeeping(s, s');
      RunBounds(env, s, l);
    } else if IsProgLabel(l) {
      ProgMutex(s, l);
      ProgTokens(s, l);
      ProgStarts(s, l);
      ProgLog(s, l);
      ProgStages(s, l);
      ProgAssets(env, s, l);
      ProgBounds(s, l);
    } else {
      SidpMutex(env, s, l);
      SidpTokens(env, s, l);
      SidpStarts(env, s, l);
      SidpLog(env, s, l);
      SidpStages(env, s, l);
      SidpAssets(env, s, l);
      SidpBounds(env, s, l);
    }
  }

  lemma StageRunInv(env: Env, s: Sys, l: Label)
    requires Inv(env, s) && RunInv(env, s) && ExecRun(env, s, l).Some?
    ensures RunInv(env, ExecRun(env, s, l).value)
  {
    RunFrame(env, s, l);
    if s.mgr.job.Some? && SafePins(s.mgr.job.value.job) {
      CortexPins(env, s);
      match l
      case LEnter => EnterRunInv(env, s);
      case LHash(readable) => HashRunInv(env, s, readable);
      case LStage(ok, flash') => FinishRunInv(env, s, ok, flash');
      case LCompare(readOk) => CompareRunInv(env, s, readOk);
      case _ =>
    }
  }

  lemma RunInvStep(env: Env, s: Sys, l: Label, s': Sys)
    requires Inv(env, s) && RunInv(env, s) && Exec(env, s, l) == Some(s')
    ensures RunInv(env, s')
  {
    ExecCases(env, s, l);
    if l.LPlug? {
      RunInvTransfer(env, s, s');
    } else if IsRunLabel(l) {
      StageRunInv(env, s, l);
    } else if IsProgLabel(l) {
      ProgRunInv(env, s, l);
    } else {
      SidpRunInv(env, s, l);
    }
  }

  lemma InvAt(env: Env, b: seq<Sys>, ls: seq<Label>, k: nat)
    requires Behavior(env, b, ls) && k < |ls| && Inv(env, b[k]) && RunInv(env, b[k])
    ensures Inv(env, b[k + 1]) && RunInv(env, b[k + 1])
  {
    assert StepAt(env, b, ls, k);
    InvStep(env, b[k], ls[k], b[k + 1]);
    RunInvStep(env, b[k], ls[k], b[k + 1]);
  }

  lemma {:induction false} Reachable(env: Env, b: seq<Sys>, ls: seq<Label>, i: nat)
    requires Behavior(env, b, ls) && i < |b|
    ensures Inv(env, b[i]) && RunInv(env, b[i])
  {
    if i == 0 {
      InitialInv(env, b[0]);
    } else {
      Reachable(env, b, ls, i - 1);
      InvAt(env, b, ls, i - 1);
    }
  }

  // ---- admission ---------------------------------------------------------

  /** The two tasks are never both inside the controller's critical section. */
  lemma MutualExclusion(env: Env, b: seq<Sys>, ls: seq<Label>, i: nat)
    requires Behavior(env, b, ls) && i < |b|
    ensures !(SidpInside(b[i].sp) && ProgInside(b[i].pp))
  {
    Reachable(env, b, ls, i);
  }

  /**
   * In every reachable state `running` holds exactly when one run token exists, and there are
   * never two. Every admitted run has begun exactly once, save the one whose token is still
   * travelling; the run in progress is the last one admitted.
   */
  lemma RunTokenConservation(env: Env, b: seq<Sys>, ls: seq<Label>, i: nat)
    requires Behavior(env, b, ls) && i < |b|
    ensures b[i].ctl.running <==> Tokens(b[i]) == 1
    ensures Tokens(b[i]) <= 1
    ensures b[i].started == b[i].executed + Count(b[i].ctl.running && !Begun(b[i].pp))
    ensures Begun(b[i].pp) ==>
              b[i].ctl.running && b[i].executed == b[i].started && b[i].ctl.lastRunId == Wrap(b[i].executed)
  {
    Reachable(env, b, ls, i);
  }

  /** Label of a step that is enabled whenever a run is admitted. */
  function ProgressLabel(s: Sys): Label {
    if s.sp.SHolds? then LSidpTest(true)
    else if s.sp.SAdmitted? then LSidpEffect(CommitFault(true, true, NoFault), ActivateFault(true, true, NoFault))
    else if s.sp.SSaveTrigger? then LSidpSave(true)
    else if s.sp.SRelease? then LSidpUnlock
    else if s.sp.SSignal? then LSidpSignal
    else
      match s.pp
      case PWait => LTakeBits
      case PAutoHolds => LAutoTest(true)
      case PAutoAdmitted => LAutoStart
      case PAutoRelease(_) => LProgUnlock
      case POwn => LInitRun
      case PTop(_) => LEnter
      case PHash(_, _) => LHash(true)
      case PBusy(_) => LStage(true, s.flash)
      case PCompare(_, _) => LCompare(true)
      case PEndHolds(_) => LSetResult
      case PEndRelease(_) => LProgUnlock
      case PRecord(_) => LRecord(true)
      case PCloseHolds => LEndRun
      case PCloseRelease => LProgUnlock
      case _ => LProgLock
  }

  predicate SidpMoves(sp: SidpPc) { SidpInside(sp) || sp.SSignal? }

  lemma SidpCanStep(env: Env, s: Sys)
    requires TokenInv(s) && SidpMoves(s.sp)
    ensures ExecSidp(env, s, ProgressLabel(s)).Some?
  {
  }

  lemma RunCanStep(env: Env, s: Sys)
    requires StageInv(s) && AssetInv(env, s) && BoundsInv(s) && s.ctl.running && !SidpMoves(s.sp)
    requires IsRunLabel(ProgressLabel(s))
    ensures ExecRun(env, s, ProgressLabel(s)).Some?
  {
  }

  lemma ProgCanStep(s: Sys)
    requires MutexInv(s) && TokenInv(s) && s.ctl.running && !SidpMoves(s.sp) && IsProgLabel(ProgressLabel(s))
    ensures ExecProg(s, ProgressLabel(s)).Some?
  {
    match s.owner
    case None =>
    case Some(t) => assert t == Prog;
  }

  /** An admitted run is never stuck: its holder, or whoever holds the mutex, can take a step. */
  lemma NoDeadlock(env: Env, b: seq<Sys>, ls: seq<Label>, i: nat)
    requires Behavior(env, b, ls) && i < |b| && b[i].ctl.running
    ensures Exec(env, b[i], ProgressLabel(b[i])).Some?
  {
    Reachable(env, b, ls, i);
    ExecCases(env, b[i], ProgressLabel(b[i]));
    if SidpMoves(b[i].sp) {
      SidpCanStep(env, b[i]);
    } else if IsRunLabel(ProgressLabel(b[i])) {
      RunCanStep(env, b[i]);
    } else {
      ProgCanStep(b[i]);
    }
  }

  lemma InsideCanStep(s: Sys)
    requires ProgInside(s.pp) && !SidpMoves(s.sp)
    ensures IsProgLabel(ProgressLabel(s)) && ExecProg(s, ProgressLabel(s)).Some?
  {
  }

  /** Whoever holds the lock, with or without a run, can take a step. */
  lemma LockHolderCanStep(env: Env, b: seq<Sys>, ls: seq<Label>, i: nat)
    requires Behavior(env, b, ls) && i < |b| && b[i].owner.Some?
    ensures Exec(env, b[i], ProgressLabel(b[i])).Some?
  {
    Reachable(env, b, ls, i);
    ExecCases(env, b[i], ProgressLabel(b[i]));
    if SidpMoves(b[i].sp) {
      SidpCanStep(env, b[i]);
    } else {
      OwnerInside(b[i]);
      InsideCanStep(b[i]);
    }
  }

  lemma OwnerInside(s: Sys)
    requires MutexInv(s) && s.owner.Some? && !SidpInside(s.sp)
    ensures ProgInside(s.pp)
  {
    assert s.owner.value == Prog;
  }

  /** A request, once it holds the lock, is admitted exactly when idle, with a job and room in the log. */
  lemma RequestAdmittedIff(env: Env, s: Sys, canAppend: bool)
    requires s.sp == SHolds(RequestRun)
    ensures var s' := ExecSidp(env, s, LSidpTest(canAppend));
            s'.Some? && (s'.value.sp == SAdmitted(RequestRun) <==>
                           !s.ctl.running && s.mgr.job.Some? && !s.log.failed && canAppend)
  {
  }

  /** So is a plug edge, if the job is armed for automatic runs. */
  lemma AutoAdmittedIff(s: Sys, canAppend: bool)
    requires s.pp.PAutoHolds?
    ensures var s' := ExecProg(s, LAutoTest(canAppend));
            s'.Some? && (s'.value.pp.PAutoAdmitted? <==>
                           && !s.ctl.running && s.ctl.trigger == AutoOnDetect && s.mgr.job.Some?
                           && !s.log.failed && canAppend)
  {
  }

  /** A plug edge that comes with a request is used up by the requested run, and no edge is taken twice. */
  lemma BitsTakenTogether(s: Sys)
    requires s.pp.PWait? && (s.runBit || s.connBit)
    ensures var s' := ExecProg(s, LTakeBits);
            s'.Some? && !s'.value.runBit && !s'.value.connBit && s'.value.pp == (if s.runBit then POwn else PAutoWant)
  {
  }

  /** The last step of a successful set_job arms the job with the requested trigger. */
  lemma TriggerIsSet(env: Env, s: Sys, saved: bool)
    requires s.sp.SSaveTrigger?
    ensures var s' := ExecSidp(env, s, LSidpSave(saved));
            s'.Some? && s'.value.ctl.trigger == (if saved then s.sp.trigger else s.ctl.trigger)
  {
  }

  /** The step that admits a run, for this reason. */
  predicate AdmitsAs(s: Sys, l: Label, t: Trigger) {
    if t == Manual then l.LSidpEffect? && s.sp == SAdmitted(RequestRun) else l.LAutoStart? && s.pp.PAutoAdmitted?
  }

  /** A run in progress continues, or was admitted by this step. */
  predicate SameOrAdmitted(s: Sys, l: Label, s': Sys) {
    s'.ctl.running ==>
      || (s.ctl.running && s'.started == s.started && s'.ctl.currentTrigger == s.ctl.currentTrigger)
      || (AdmitsAs(s, l, s'.ctl.currentTrigger) && s'.started == s.started + 1)
  }

  lemma SidpOrigin(env: Env, s: Sys, l: Label)
    requires TokenInv(s) && ExecSidp(env, s, l).Some?
    ensures SameOrAdmitted(s, l, ExecSidp(env, s, l).value)
  {
  }

  lemma ProgOrigin(s: Sys, l: Label)
    requires TokenInv(s) && ExecProg(s, l).Some?
    ensures SameOrAdmitted(s, l, ExecProg(s, l).value)
  {
  }

  lemma OriginAt(env: Env, b: seq<Sys>, ls: seq<Label>, k: nat)
    requires Behavior(env, b, ls) && k < |ls|
    ensures SameOrAdmitted(b[k], ls[k], b[k + 1])
  {
    Reachable(env, b, ls, k);
    assert StepAt(env, b, ls, k);
    ExecCases(env, b[k], ls[k]);
    if IsRunLabel(ls[k]) {
      RunFrame(env, b[k], ls[k]);
    } else if IsProgLabel(ls[k]) {
      ProgOrigin(b[k], ls[k]);
    } else if !ls[k].LPlug? {
      SidpOrigin(env, b[k], ls[k]);
    }
  }

  /** The run in progress was admitted by exactly the kind of step its trigger names. */
  lemma {:induction false} RunOrigin(env: Env, b: seq<Sys>, ls: seq<Label>, i: nat)
    requires Behavior(env, b, ls) && i < |b| && b[i].ctl.running
    ensures exists j :: 0 <= j < i && AdmitsAs(b[j], ls[j], b[i].ctl.currentTrigger) && b[j + 1].started == b[i].started
  {
    assert i > 0;
    OriginAt(env, b, ls, i - 1);
    if b[i - 1].ctl.running && b[i].started == b[i - 1].started {
      RunOrigin(env, b, ls, i - 1);
    } else {
      assert AdmitsAs(b[i - 1], ls[i - 1], b[i].ctl.currentTrigger);
    }
  }

  /** A record says MANUAL for a requested run and AUTO_ON_DETECT for one that a plug edge started. */
  lemma RecordTellsTrigger(env: Env, b: seq<Sys>, ls: seq<Label>, i: nat)
    requires Behavior(env, b, ls) && i < |ls| && |b[i + 1].log.recs| > |b[i].log.recs|
    ensures var t := b[i + 1].log.recs[|b[i].log.recs|].trigger;
            exists j :: 0 <= j < i && AdmitsAs(b[j], ls[j], t) && b[j + 1].started == b[i].started
  {
    Reachable(env, b, ls, i);
    RecordAt(env, b, ls, i);
    RunOrigin(env, b, ls, i);
  }

  // ---- the job on disk ---------------------------------------------------

  /** A job is published without its file. */
  predicate Unsaved(s: Sys) { s.mgr.job.Some? && JOB_PATH !in s.st.fs }

  predicate FailedRename(s: Sys, l: Label) {
    l.LSidpEffect? && l.af.install.RenameFails? && s.sp.SAdmitted? && s.sp.op.SetJob?
  }

  lemma EffectSaves(env: Env, s: Sys, l: Label)
    requires AssetInv(env, s) && l.LSidpEffect? && ExecSidp(env, s, l).Some?
    ensures Unsaved(ExecSidp(env, s, l).value) ==> Unsaved(s) || FailedRename(s, l)
  {
    match s.sp.op
    case SetJob(sha, trigger) => ActivateKeeps(env, s.mgr, s.st.fs, sha, l.af);
    case CommitAsset => UploadKeepsActive(env, s.mgr, s.st, OpCommit(l.cf));
    case RequestRun =>
  }

  lemma SidpSaves(env: Env, s: Sys, l: Label)
    requires AssetInv(env, s) && ExecSidp(env, s, l).Some?
    ensures Unsaved(ExecSidp(env, s, l).value) ==> Unsaved(s) || FailedRename(s, l)
  {
    if l.LSidpEffect? {
      EffectSaves(env, s, l);
    } else if l.LBegin? {
      UploadKeepsActive(env, s.mgr, s.st, OpBegin(l.name, l.size, l.digest, l.bf));
    } else if l.LWrite? {
      UploadKeepsActive(env, s.mgr, s.st, OpWrite(l.offset, l.data, l.accepted));
    }
  }

  lemma ProgLeavesAssets(s: Sys, l: Label)
    requires ExecProg(s, l).Some?
    ensures ExecProg(s, l).value.st == s.st && ExecProg(s, l).value.mgr == s.mgr
  {
  }

  lemma UnsavedAt(env: Env, b: seq<Sys>, ls: seq<Label>, k: nat)
    requires Behavior(env, b, ls) && k < |ls| && Unsaved(b[k + 1])
    ensures Unsaved(b[k]) || FailedRename(b[k], ls[k])
  {
    Reachable(env, b, ls, k);
    assert StepAt(env, b, ls, k);
    ExecCases(env, b[k], ls[k]);
    if IsRunLabel(ls[k]) {
      RunFrame(env, b[k], ls[k]);
    } else if IsProgLabel(ls[k]) {
      ProgLeavesAssets(b[k], ls[k]);
    } else if !ls[k].LPlug? {
      SidpSaves(env, b[k], ls[k]);
    }
  }

  /**
   * Over every behaviour: whenever a job is published, job.pb is absent or hashes to the active
   * hash; and it is absent only after an install rename of set_job failed.
   */
  lemma {:induction false} ActiveJobOnDisk(env: Env, b: seq<Sys>, ls: seq<Label>, i: nat)
    requires Behavior(env, b, ls) && i < |b| && b[i].mgr.job.Some?
    ensures JOB_PATH in b[i].st.fs ==> env.sha(b[i].st.fs[JOB_PATH]) == b[i].mgr.activeSha
    ensures JOB_PATH !in b[i].st.fs ==> exists j :: 0 <= j < i && FailedRename(b[j], ls[j])
  {
    Reachable(env, b, ls, i);
    if Unsaved(b[i]) {
      if i == 0 {
        var readable :| b[0].mgr == LoadAtBoot(env, b[0].st.fs, readable);
        BootEstablishesActive(env, b[0].st.fs, readable);
        assert false;
      }
      UnsavedAt(env, b, ls, i - 1);
      if Unsaved(b[i - 1]) {
        ActiveJobOnDisk(env, b, ls, i - 1);
      }
    }
  }

  // ---- accounting --------------------------------------------------------

  /**
   * Runs admitted = runs recorded + the one in flight + one if a log write failed; and the
   * recorded ids are 1, 2, 3, ... without a gap (modulo the 32-bit counter).
   */
  lemma LogConservation(env: Env, b: seq<Sys>, ls: seq<Label>, i: nat)
    requires Behavior(env, b, ls) && i < |b|
    ensures b[i].started == |b[i].log.recs| + Count(Unrecorded(b[i])) + Count(b[i].log.failed)
    ensures forall k :: 0 <= k < |b[i].log.recs| ==> b[i].log.recs[k].result.runId == Wrap(k + 1)
    ensures b[i].started < U32 ==>
              forall j, k :: 0 <= j < k < |b[i].log.recs| ==>
                  b[i].log.recs[j].result.runId < b[i].log.recs[k].result.runId
  {
    Reachable(env, b, ls, i);
  }

  lemma FailedLogStep(env: Env, s: Sys, l: Label, s': Sys)
    requires Inv(env, s) && s.log.failed && Exec(env, s, l) == Some(s')
    ensures s'.log == s.log && s'.started == s.started
  {
    ExecCases(env, s, l);
    if IsRunLabel(l) {
      RunFrame(env, s, l);
    }
  }

  lemma FailedLogAt(env: Env, b: seq<Sys>, ls: seq<Label>, k: nat)
    requires Behavior(env, b, ls) && k < |ls| && b[k].log.failed
    ensures b[k + 1].log == b[k].log && b[k + 1].started == b[k].started
  {
    Reachable(env, b, ls, k);
    assert StepAt(env, b, ls, k);
    FailedLogStep(env, b[k], ls[k], b[k + 1]);
  }

  /** After a failed log write no run is ever admitted again in this boot. */
  lemma {:induction false} FailedLogStopsRuns(env: Env, b: seq<Sys>, ls: seq<Label>, i: nat, j: nat)
    requires Behavior(env, b, ls) && i <= j < |b| && b[i].log.failed
    ensures b[j].log == b[i].log && b[j].started == b[i].started
  {
    if i < j {
      FailedLogStopsRuns(env, b, ls, i, j - 1);
      FailedLogAt(env, b, ls, j - 1);
    }
  }

  // ---- no change under a run ---------------------------------------------

  lemma FrozenStep(env: Env, s: Sys, l: Label, s': Sys)
    requires Inv(env, s) && s.ctl.running && Exec(env, s, l) == Some(s')
    ensures s'.mgr == s.mgr && s'.started == s.started
    ensures forall p :: !IsPartPath(p) ==> SameAt(s.st.fs, s'.st.fs, p)
  {
    ExecCases(env, s, l);
    if IsRunLabel(l) {
      RunFrame(env, s, l);
    } else if !l.LPlug? && !IsProgLabel(l) {
      AssetsFrozen(env, s, l);
    }
  }

  lemma FrozenAt(env: Env, b: seq<Sys>, ls: seq<Label>, k: nat)
    requires Behavior(env, b, ls) && k < |ls| && b[k].ctl.running
    ensures b[k + 1].mgr == b[k].mgr && b[k + 1].started == b[k].started
    ensures forall p :: !IsPartPath(p) ==> SameAt(b[k].st.fs, b[k + 1].st.fs, p)
  {
    Reachable(env, b, ls, k);
    assert StepAt(env, b, ls, k);
    FrozenStep(env, b[k], ls[k], b[k + 1]);
  }

  /** From admission to the end of a run, neither the job nor any installed file changes. */
  lemma {:induction false} NothingChangesUnderARun(env: Env, b: seq<Sys>, ls: seq<Label>, i: nat, j: nat)
    requires Behavior(env, b, ls) && i <= j < |b|
    requires forall k :: i <= k < j ==> b[k].ctl.running
    ensures b[j].mgr == b[i].mgr && b[j].started == b[i].started
    ensures forall p :: !IsPartPath(p) ==> SameAt(b[i].st.fs, b[j].st.fs, p)
  {
    if i < j {
      NothingChangesUnderARun(env, b, ls, i, j - 1);
      FrozenAt(env, b, ls, j - 1);
    }
  }

  // ---- what a PASS record means ------------------------------------------

  /** Every pinned file has its pinned hash and is in flash, padded, at its offset. */
  ghost predicate Verified(env: Env, s: Sys) {
    && s.mgr.job.Some?
    && forall k :: 0 <= k < |Pins(s.mgr.job.value.job)| ==>
         PinOk(env, s.st.fs, Pins(s.mgr.job.value.job)[k]) && InFlash(s, Pins(s.mgr.job.value.job)[k])
  }

  /** The job of this state pins no partial upload. */
  ghost predicate Safe(s: Sys) { s.mgr.job.Some? ==> SafePins(s.mgr.job.value.job) }

  predicate PassedVerify(pp: ProgPc) {
    || ((pp.PTop? || pp.PBusy?) && (pp.st.SelfTest? || pp.st.PostProgram? || pp.st.Done?))
    || ((pp.PEndWant? || pp.PEndHolds? || pp.PEndRelease? || pp.PRecord?) && pp.ret == Ok)
  }

  /** Steps of the service task leave the run where it is, and the log alone. */
  lemma SidpLeavesRun(env: Env, s: Sys, l: Label)
    requires ExecSidp(env, s, l).Some?
    ensures var s' := ExecSidp(env, s, l).value;
            s'.pp == s.pp && s'.log == s.log && s'.failed == s.failed && s'.ctl.last == s.ctl.last
  {
  }

  lemma ProgNeverPassesVerify(s: Sys, l: Label)
    requires ExecProg(s, l).Some? && PassedVerify(ExecProg(s, l).value.pp)
    ensures PassedVerify(s.pp)
  {
  }

  lemma HashNeverPassesVerify(env: Env, s: Sys, job: Job, readable: bool)
    requires s.pp.PHash? && s.pp.k < |Pins(job)|
    ensures !PassedVerify(HashNext(env, s, job, readable).pp)
  {
    var pp' := HashNext(env, s, job, readable).pp;
    assert pp'.PHash? || pp' == PTop(Error) || pp' == PTop(PreProgram);
  }

  lemma CompareEndsAtSelfTest(s: Sys, job: Job, readOk: bool)
    requires s.pp.PCompare? && s.pp.k < |Pins(job)| && |s.flash| == U32
    ensures var pp' := CompareNext(s, job, readOk).pp; PassedVerify(pp') ==> pp' == PTop(SelfTest)
  {
    var pp' := CompareNext(s, job, readOk).pp;
    assert pp'.PCompare? || pp' == PTop(Error) || pp' == PTop(SelfTest);
  }

  lemma FinishPassesInOrder(s: Sys, ok: bool, flash': Bytes)
    requires s.pp.PBusy? && Working(s.pp.st) && !PassedVerify(s.pp)
    ensures var pp' := FinishStage(s, ok, flash').pp; PassedVerify(pp') ==> s.pp.st.Verify? && pp' == PTop(SelfTest)
  {
  }

  lemma OnlyStagesPassVerify(env: Env, s: Sys, l: Label, s': Sys)
    requires ExecRun(env, s, l) == Some(s') && !PassedVerify(s.pp) && PassedVerify(s'.pp)
    ensures s'.pp == PTop(SelfTest) && (l.LCompare? || (l.LStage? && s.pp == PBusy(Verify)))
  {
    match l
    case LHash(readable) => HashNeverPassesVerify(env, s, s.mgr.job.value.job, readable);
    case LCompare(readOk) => CompareEndsAtSelfTest(s, s.mgr.job.value.job, readOk);
    case LStage(ok, flash') => FinishPassesInOrder(s, ok, flash');
    case _ =>
  }

  /** The only way past VERIFY is its last matching block. */
  lemma VerifyEnds(env: Env, s: Sys, l: Label, s': Sys)
    requires Safe(s) && Inv(env, s) && RunInv(env, s) && Exec(env, s, l) == Some(s')
    requires !PassedVerify(s.pp) && PassedVerify(s'.pp)
    ensures s'.pp == PTop(SelfTest) && Verified(env, s')
  {
    ExecCases(env, s, l);
    if IsRunLabel(l) {
      OnlyStagesPassVerify(env, s, l, s');
      CortexPins(env, s);
      if l.LCompare? {
        LastBlock(env, s, l.readOk);
      }
    } else if IsProgLabel(l) {
      ProgNeverPassesVerify(s, l);
    } else if !l.LPlug? {
      SidpLeavesRun(env, s, l);
    }
  }

  lemma LastBlock(env: Env, s: Sys, readOk: bool)
    requires BoundsInv(s) && RunInv(env, s) && s.mgr.job.Some? && SafePins(s.mgr.job.value.job)
    requires s.pp.PCompare? && s.pp.k < |Pins(s.mgr.job.value.job)|
    requires IsCortexM(s.mgr.job.value.job) ==> Pins(s.mgr.job.value.job)[s.pp.k].path == FIRMWARE_PATH
    requires CompareNext(s, s.mgr.job.value.job, readOk).pp == PTop(SelfTest)
    ensures Verified(env, CompareNext(s, s.mgr.job.value.job, readOk))
  {
    var pins := Pins(s.mgr.job.value.job);
    var s' := CompareNext(s, s.mgr.job.value.job, readOk);
    CompareProgress(env, s, readOk);
    assert s' == s.(pp := PTop(SelfTest)) && s.pp.k + 1 == |pins|;
    forall k | 0 <= k < |pins|
      ensures PinOk(env, s'.st.fs, pins[k]) && InFlash(s', pins[k])
    {
      assert InFlash(s, pins[k]);
    }
  }

  /** Some earlier state of the same run ended VERIFY with everything in place. */
  ghost predicate VerifiedBefore(env: Env, b: seq<Sys>, i: nat)
    requires i < |b|
  {
    exists j :: 0 <= j <= i && b[j].pp == PTop(SelfTest) && Verified(env, b[j])
                && b[j].started == b[i].started && b[j].mgr == b[i].mgr
  }

  lemma WitnessCarries(env: Env, b: seq<Sys>, i: nat)
    requires 0 < i < |b| && VerifiedBefore(env, b, i - 1) && b[i].mgr == b[i - 1].mgr
    requires b[i].started == b[i - 1].started
    ensures VerifiedBefore(env, b, i)
  {
    var j :| 0 <= j <= i - 1 && b[j].pp == PTop(SelfTest) && Verified(env, b[j])
             && b[j].started == b[i - 1].started && b[j].mgr == b[i - 1].mgr;
  }

  /** The step into a state past VERIFY belongs to its run. */
  lemma SameRun(env: Env, s: Sys, l: Label, s': Sys)
    requires Inv(env, s) && Exec(env, s, l) == Some(s') && PassedVerify(s'.pp)
    ensures s'.mgr == s.mgr && s'.started == s.started
  {
    ExecCases(env, s, l);
    if IsRunLabel(l) {
      RunFrame(env, s, l);
    } else if IsProgLabel(l) {
      ProgNeverPassesVerify(s, l);
      FrozenStep(env, s, l, s');
    } else if !l.LPlug? {
      SidpLeavesRun(env, s, l);
      FrozenStep(env, s, l, s');
    }
  }

  /** A state past VERIFY either has just ended it, or continues the run of its predecessor. */
  lemma PastVerifyStep(env: Env, s: Sys, l: Label, s': Sys)
    requires Safe(s') && Inv(env, s) && RunInv(env, s) && Exec(env, s, l) == Some(s') && PassedVerify(s'.pp)
    ensures s'.mgr == s.mgr && s'.started == s.started
    ensures PassedVerify(s.pp) || (s'.pp == PTop(SelfTest) && Verified(env, s'))
  {
    SameRun(env, s, l, s');
    if !PassedVerify(s.pp) {
      VerifyEnds(env, s, l, s');
    }
  }

  lemma PastVerifyAt(env: Env, b: seq<Sys>, ls: seq<Label>, k: nat)
    requires Behavior(env, b, ls) && k < |ls| && PassedVerify(b[k + 1].pp) && Safe(b[k + 1])
    ensures b[k + 1].mgr == b[k].mgr && b[k + 1].started == b[k].started
    ensures PassedVerify(b[k].pp) || (b[k + 1].pp == PTop(SelfTest) && Verified(env, b[k + 1]))
  {
    Reachable(env, b, ls, k);
    assert StepAt(env, b, ls, k);
    PastVerifyStep(env, b[k], ls[k], b[k + 1]);
  }

  lemma {:induction false} VerifyWitness(env: Env, b: seq<Sys>, ls: seq<Label>, i: nat)
    requires Behavior(env, b, ls) && i < |b| && PassedVerify(b[i].pp) && Safe(b[i])
    ensures VerifiedBefore(env, b, i)
  {
    assert i > 0;
    PastVerifyAt(env, b, ls, i - 1);
    if PassedVerify(b[i - 1].pp) {
      VerifyWitness(env, b, ls, i - 1);
      WitnessCarries(env, b, i);
    }
  }

  /**
   * End to end. Over every interleaving of the two tasks, when a PASS record is appended:
   * at the end of VERIFY of that very run, every file the job pins had the pinned SHA-256 and
   * was in flash byte for byte, padded with 0xFF to four bytes, at the offset the job gives;
   * and the hash in the record is that of a job file that decodes to this job. The job may pin
   * no partial upload, which UnsafePins.UnverifiedPass shows to be necessary.
   */
  lemma PassMeansVerified(env: Env, b: seq<Sys>, ls: seq<Label>, i: nat)
    requires Behavior(env, b, ls) && i < |ls| && Safe(b[i])
    requires |b[i + 1].log.recs| > |b[i].log.recs|
    requires b[i + 1].log.recs[|b[i].log.recs|].result.outcome == OutcomePass
    ensures var rec := b[i + 1].log.recs[|b[i].log.recs|];
            exists j, content ::
              && 0 <= j <= i && b[j].pp == PTop(SelfTest) && b[j].started == b[i].started
              && Verified(env, b[j])
              && rec.jobSha == env.sha(content) && DecodesTo(env, content, b[j].mgr.job.value)
              && rec.result.runId == Wrap(b[j].started)
  {
    var rec := b[i + 1].log.recs[|b[i].log.recs|];
    Reachable(env, b, ls, i);
    RecordAt(env, b, ls, i);
    VerifyWitness(env, b, ls, i);
    var j :| 0 <= j <= i && b[j].pp == PTop(SelfTest) && Verified(env, b[j])
             && b[j].started == b[i].started && b[j].mgr == b[i].mgr;
    var content :| env.sha(content) == b[i].mgr.activeSha && DecodesTo(env, content, b[i].mgr.job.value);
    assert rec.jobSha == env.sha(content) && DecodesTo(env, content, b[j].mgr.job.value);
  }

  /** The same for jobs whose images have names the store accepts, where file names and FAT names agree. */
  lemma PassMeansVerifiedForNamedImages(env: Env, b: seq<Sys>, ls: seq<Label>, i: nat) returns (j: nat)
    requires Behavior(env, b, ls) && i < |ls|
    requires b[i].mgr.job.Some? ==> NamedPins(b[i].mgr.job.value.job)
    requires |b[i + 1].log.recs| > |b[i].log.recs|
    requires b[i + 1].log.recs[|b[i].log.recs|].result.outcome == OutcomePass
    ensures j <= i && b[j].pp == PTop(SelfTest) && b[j].started == b[i].started && Verified(env, b[j])
  {
    if b[i].mgr.job.Some? {
      NamedPinsAreSafe(b[i].mgr.job.value.job);
    }
    PassMeansVerified(env, b, ls, i);
    var k, content :|
      && 0 <= k <= i && b[k].pp == PTop(SelfTest) && b[k].started == b[i].started
      && Verified(env, b[k])
      && b[i + 1].log.recs[|b[i].log.recs|].jobSha == env.sha(content) && DecodesTo(env, content, b[k].mgr.job.value)
      && b[i + 1].log.recs[|b[i].log.recs|].result.runId == Wrap(b[k].started);
    j := k;
  }

  /** A Cortex-M job always pins the firmware, so it needs no such assumption. */
  lemma CortexJobsAreSafe(env: Env, content: Bytes, d: Decoded)
    requires DecodesTo(env, content, d) && IsCortexM(d.job)
    ensures SafePins(d.job)
  {
    FixedPathsNotPart(FIRMWARE_PATH);
  }

  /** Records are appended only by record_run, from the result of the run that is ending. */
  lemma RecordStep(env: Env, s: Sys, l: Label, s': Sys)
    requires Inv(env, s) && Exec(env, s, l) == Some(s') && |s'.log.recs| > |s.log.recs|
    ensures l == LRecord(true) && s.pp.PRecord?
    ensures s'.log.recs == s.log.recs + [RunRecord(s.ctl.last, s.ctl.currentTrigger, s.pp.ret, s.mgr.activeSha)]
    ensures s.ctl.last.outcome == OutcomePass <==> s.pp.ret == Ok
    ensures s.ctl.last.runId == Wrap(s.started)
    ensures s.ctl.last.outcome == OutcomePass <==> s.ctl.last.failedStage == StageNone
  {
    ExecCases(env, s, l);
    if IsRunLabel(l) {
      RunFrame(env, s, l);
    } else if !l.LPlug? && !IsProgLabel(l) {
      SidpLeavesRun(env, s, l);
    }
  }

  lemma RecordAt(env: Env, b: seq<Sys>, ls: seq<Label>, k: nat)
    requires Behavior(env, b, ls) && k < |ls| && |b[k + 1].log.recs| > |b[k].log.recs|
    ensures ls[k] == LRecord(true) && b[k].pp.PRecord? && b[k].ctl.last.runId == Wrap(b[k].started)
    ensures b[k + 1].log.recs == b[k].log.recs
              + [RunRecord(b[k].ctl.last, b[k].ctl.currentTrigger, b[k].pp.ret, b[k].mgr.activeSha)]
    ensures b[k].ctl.last.outcome == OutcomePass <==> b[k].pp.ret == Ok
    ensures b[k].mgr.job.Some?
  {
    Reachable(env, b, ls, k);
    assert StepAt(env, b, ls, k);
    RecordStep(env, b[k], ls[k], b[k + 1]);
  }

  // ---- cancellation ------------------------------------------------------

  predicate CancelStep(s: Sys, l: Label) {
    s.ctl.running && s.sp.SHolds? && s.sp.op.CancelRequest? && l.LSidpTest?
        && (s.sp.op.id == 0 || s.sp.op.id == s.ctl.lastRunId)
  }

  lemma SidpCancelFlag(env: Env, s: Sys, l: Label)
    requires TokenInv(s) && ExecSidp(env, s, l).Some? && ExecSidp(env, s, l).value.ctl.cancel
    ensures ExecSidp(env, s, l).value.started == s.started && (s.ctl.cancel || CancelStep(s, l))
  {
  }

  lemma ProgCancelFlag(s: Sys, l: Label)
    requires ExecProg(s, l).Some? && ExecProg(s, l).value.ctl.cancel
    ensures ExecProg(s, l).value.started == s.started && s.ctl.cancel
  {
  }

  lemma CancelFlagStep(env: Env, s: Sys, l: Label, s': Sys)
    requires Inv(env, s) && Exec(env, s, l) == Some(s') && s'.ctl.cancel
    ensures s'.started == s.started && (s.ctl.cancel || CancelStep(s, l))
  {
    ExecCases(env, s, l);
    if IsRunLabel(l) {
      RunFrame(env, s, l);
    } else if IsProgLabel(l) {
      ProgCancelFlag(s, l);
    } else if !l.LPlug? {
      SidpCancelFlag(env, s, l);
    }
  }

  lemma CancelFlagAt(env: Env, b: seq<Sys>, ls: seq<Label>, k: nat)
    requires Behavior(env, b, ls) && k < |ls| && b[k + 1].ctl.cancel
    ensures b[k + 1].ctl.running && b[k + 1].started == b[k].started && (b[k].ctl.cancel || CancelStep(b[k], ls[k]))
  {
    Reachable(env, b, ls, k);
    Reachable(env, b, ls, k + 1);
    assert StepAt(env, b, ls, k);
    CancelFlagStep(env, b[k], ls[k], b[k + 1]);
  }

  /** A set cancel flag was set by a request that named this very run (or "any run") while it ran. */
  lemma {:induction false} CancelIsolation(env: Env, b: seq<Sys>, ls: seq<Label>, i: nat)
    requires Behavior(env, b, ls) && i < |b| && b[i].ctl.cancel
    ensures b[i].ctl.running
    ensures exists j :: 0 <= j < i && CancelStep(b[j], ls[j]) && b[j].started == b[i].started
  {
    assert i > 0;
    CancelFlagAt(env, b, ls, i - 1);
    if b[i - 1].ctl.cancel {
      CancelIsolation(env, b, ls, i - 1);
    }
  }

  /** Started runs are never taken back, and only the end of a run takes its cancel flag with it. */
  predicate KeepsCancel(s: Sys, s': Sys) {
    && s.started <= s'.started
    && (s'.started == s.started && s'.ctl.running ==> s.ctl.running && (s.ctl.cancel ==> s'.ctl.cancel))
  }

  lemma SidpKeepsFlag(env: Env, s: Sys, l: Label)
    requires TokenInv(s) && ExecSidp(env, s, l).Some?
    ensures KeepsCancel(s, ExecSidp(env, s, l).value)
  {
  }

  lemma ProgKeepsFlag(s: Sys, l: Label)
    requires TokenInv(s) && ExecProg(s, l).Some?
    ensures KeepsCancel(s, ExecProg(s, l).value)
  {
  }

  lemma KeepsCancelAt(env: Env, b: seq<Sys>, ls: seq<Label>, k: nat)
    requires Behavior(env, b, ls) && k < |ls|
    ensures KeepsCancel(b[k], b[k + 1])
  {
    Reachable(env, b, ls, k);
    assert StepAt(env, b, ls, k);
    ExecCases(env, b[k], ls[k]);
    if IsRunLabel(ls[k]) {
      RunFrame(env, b[k], ls[k]);
    } else if IsProgLabel(ls[k]) {
      ProgKeepsFlag(b[k], ls[k]);
    } else if !ls[k].LPlug? {
      SidpKeepsFlag(env, b[k], ls[k]);
    }
  }

  /** A cancel request that names the run, or any run, sets its flag. */
  lemma CancelTakes(env: Env, b: seq<Sys>, ls: seq<Label>, k: nat)
    requires Behavior(env, b, ls) && k < |ls| && CancelStep(b[k], ls[k])
    ensures b[k + 1].ctl.cancel && b[k + 1].ctl.running && b[k + 1].started == b[k].started
  {
    assert StepAt(env, b, ls, k);
    ExecCases(env, b[k], ls[k]);
  }

  lemma {:induction false} CancelSticks(env: Env, b: seq<Sys>, ls: seq<Label>, k: nat, j: nat)
    requires Behavior(env, b, ls) && k < |ls| && k < j < |b| && CancelStep(b[k], ls[k])
    ensures b[k].started <= b[j].started && (b[j].started == b[k].started && b[j].ctl.running ==> b[j].ctl.cancel)
  {
    if j == k + 1 {
      CancelTakes(env, b, ls, k);
    } else {
      CancelSticks(env, b, ls, k, j - 1);
      KeepsCancelAt(env, b, ls, j - 1);
    }
  }

  /**
   * A cancel request stops its run at the next stage: no stage of that run is entered any more,
   * and the run is on its way to a CANCELLED record.
   */
  lemma CancelStopsRun(env: Env, b: seq<Sys>, ls: seq<Label>, k: nat, j: nat)
    requires Behavior(env, b, ls) && k < j < |ls| && CancelStep(b[k], ls[k])
    requires b[j].started == b[k].started && ls[j] == LEnter && b[j].pp.PTop? && Working(b[j].pp.st)
    ensures CancelTail(b[j + 1], b[j].pp.st)
  {
    Reachable(env, b, ls, j);
    CancelSticks(env, b, ls, k, j);
    CancelCheckAt(env, b, ls, j);
  }

  /** The result of the run that is ending says CANCELLED. */
  predicate EndsCancelled(s: Sys) {
    (s.pp.PEndRelease? || s.pp.PRecord?) && s.ctl.last.outcome == OutcomeCancelled
  }

  lemma ProgEndsCancelled(s: Sys, l: Label)
    requires ExecProg(s, l).Some? && EndsCancelled(ExecProg(s, l).value)
    ensures ExecProg(s, l).value.started == s.started && (EndsCancelled(s) || s.ctl.cancel)
  {
  }

  lemma EndsCancelledAt(env: Env, b: seq<Sys>, ls: seq<Label>, k: nat)
    requires Behavior(env, b, ls) && k < |ls| && EndsCancelled(b[k + 1])
    ensures b[k + 1].started == b[k].started && (EndsCancelled(b[k]) || b[k].ctl.cancel)
  {
    Reachable(env, b, ls, k);
    assert StepAt(env, b, ls, k);
    ExecCases(env, b[k], ls[k]);
    if IsRunLabel(ls[k]) {
      RunFrame(env, b[k], ls[k]);
    } else if IsProgLabel(ls[k]) {
      ProgEndsCancelled(b[k], ls[k]);
    } else if !ls[k].LPlug? {
      SidpLeavesRun(env, b[k], ls[k]);
      FrozenStep(env, b[k], ls[k], b[k + 1]);
    }
  }

  lemma {:induction false} CancelledHasCause(env: Env, b: seq<Sys>, ls: seq<Label>, i: nat)
    requires Behavior(env, b, ls) && i < |b| && EndsCancelled(b[i])
    ensures exists j :: 0 <= j < i && CancelStep(b[j], ls[j]) && b[j].started == b[i].started
  {
    assert i > 0;
    EndsCancelledAt(env, b, ls, i - 1);
    if EndsCancelled(b[i - 1]) {
      CancelledHasCause(env, b, ls, i - 1);
    } else {
      CancelIsolation(env, b, ls, i - 1);
    }
  }

  /** A CANCELLED record stems from a cancel request that named its run, or any run, while it ran. */
  lemma CancelledWasRequested(env: Env, b: seq<Sys>, ls: seq<Label>, i: nat)
    requires Behavior(env, b, ls) && i < |ls| && |b[i + 1].log.recs| > |b[i].log.recs|
    requires b[i + 1].log.recs[|b[i].log.recs|].result.outcome == OutcomeCancelled
    ensures exists j :: 0 <= j < i && CancelStep(b[j], ls[j]) && b[j].started == b[i].started
  {
    RecordAt(env, b, ls, i);
    CancelledHasCause(env, b, ls, i);
  }

  /** A run stopped by the cancel check in stage st, up to its record. */
  predicate CancelTail(s: Sys, st: PgState) {
    && s.ctl.cancel && s.failed == st
    && (s.pp == PEndWant(Fail) || s.pp == PEndHolds(Fail)
        || ((s.pp == PEndRelease(Fail) || s.pp == PRecord(Fail))
            && s.ctl.last.outcome == OutcomeCancelled && s.ctl.last.failedStage == ToStage(st)))
  }

  lemma CancelTailStep(env: Env, s: Sys, l: Label, s': Sys, st: PgState)
    requires Inv(env, s) && CancelTail(s, st) && Exec(env, s, l) == Some(s')
    ensures !l.LRecord? ==> CancelTail(s', st)
    ensures l == LRecord(true) ==>
              && |s'.log.recs| == |s.log.recs| + 1
              && s'.log.recs[|s.log.recs|].result == RunResult(Wrap(s.started), OutcomeCancelled, ToStage(st))
  {
    ExecCases(env, s, l);
    if IsRunLabel(l) {
      RunFrame(env, s, l);
    } else if IsProgLabel(l) {
      CancelTailProg(s, l, st);
    } else if !l.LPlug? {
      SidpLeavesRun(env, s, l);
      SidpKeepsCancel(env, s, l);
    }
  }

  lemma CancelTailProg(s: Sys, l: Label, st: PgState)
    requires StartInv(s) && StageInv(s) && CancelTail(s, st) && ExecProg(s, l).Some?
    ensures var s' := ExecProg(s, l).value;
            && (!l.LRecord? ==> CancelTail(s', st))
            && (l == LRecord(true) ==>
                  && |s'.log.recs| == |s.log.recs| + 1
                  && s'.log.recs[|s.log.recs|].result == RunResult(Wrap(s.started), OutcomeCancelled, ToStage(st)))
  {
  }

  lemma SidpKeepsCancel(env: Env, s: Sys, l: Label)
    requires TokenInv(s) && s.ctl.cancel && ExecSidp(env, s, l).Some?
    ensures ExecSidp(env, s, l).value.ctl.cancel
  {
  }

  lemma CancelTailAt(env: Env, b: seq<Sys>, ls: seq<Label>, k: nat, st: PgState)
    requires Behavior(env, b, ls) && k < |ls| && CancelTail(b[k], st)
    ensures !ls[k].LRecord? ==> CancelTail(b[k + 1], st)
    ensures ls[k] == LRecord(true) ==>
              && |b[k + 1].log.recs| == |b[k].log.recs| + 1
              && b[k + 1].log.recs[|b[k].log.recs|].result
                    == RunResult(Wrap(b[k].started), OutcomeCancelled, ToStage(st))
  {
    Reachable(env, b, ls, k);
    assert StepAt(env, b, ls, k);
    CancelTailStep(env, b[k], ls[k], b[k + 1], st);
  }

  lemma CancelCheckAt(env: Env, b: seq<Sys>, ls: seq<Label>, k: nat)
    requires Behavior(env, b, ls) && k < |ls| && ls[k] == LEnter && b[k].pp.PTop? && Working(b[k].pp.st)
    requires b[k].ctl.cancel
    ensures CancelTail(b[k + 1], b[k].pp.st)
  {
    assert StepAt(env, b, ls, k);
    ExecCases(env, b[k], ls[k]);
  }

  lemma {:induction false} CancelStaysCancelled(env: Env, b: seq<Sys>, ls: seq<Label>, i: nat, j: nat)
    requires Behavior(env, b, ls) && i < j < |b|
    requires ls[i] == LEnter && b[i].pp.PTop? && Working(b[i].pp.st) && b[i].ctl.cancel
    requires forall k :: i < k < j ==> !ls[k].LRecord?
    ensures CancelTail(b[j], b[i].pp.st)
  {
    if j == i + 1 {
      CancelCheckAt(env, b, ls, i);
    } else {
      CancelStaysCancelled(env, b, ls, i, j - 1);
      CancelTailAt(env, b, ls, j - 1, b[i].pp.st);
    }
  }

  /**
   * A run that the cancel check stopped in stage st is recorded CANCELLED, naming st, whatever
   * the other task does meanwhile.
   */
  lemma CancelledIsRecordedCancelled(env: Env, b: seq<Sys>, ls: seq<Label>, i: nat, j: nat)
    requires Behavior(env, b, ls) && i < j < |ls|
    requires ls[i] == LEnter && b[i].pp.PTop? && Working(b[i].pp.st) && b[i].ctl.cancel
    requires ls[j] == LRecord(true) && forall k :: i < k < j ==> !ls[k].LRecord?
    ensures |b[j + 1].log.recs| == |b[j].log.recs| + 1
    ensures b[j + 1].log.recs[|b[j].log.recs|].result
              == RunResult(Wrap(b[j].started), OutcomeCancelled, ToStage(b[i].pp.st))
  {
    CancelStaysCancelled(env, b, ls, i, j);
    CancelTailAt(env, b, ls, j, b[i].pp.st);
  }

  /** A run that reached DONE, up to its record. */
  predicate DoneTail(s: Sys) {
    && s.failed == Done
    && (s.pp == PTop(Done) || s.pp == PEndWant(Ok) || s.pp == PEndHolds(Ok)
        || ((s.pp == PEndRelease(Ok) || s.pp == PRecord(Ok))
            && s.ctl.last.outcome == OutcomePass && s.ctl.last.failedStage == StageNone))
  }

  lemma DoneTailProg(s: Sys, l: Label)
    requires StartInv(s) && StageInv(s) && DoneTail(s) && ExecProg(s, l).Some?
    ensures var s' := ExecProg(s, l).value;
            && (!l.LRecord? ==> DoneTail(s'))
            && (l == LRecord(true) ==>
                  && |s'.log.recs| == |s.log.recs| + 1
                  && s'.log.recs[|s.log.recs|].result == RunResult(Wrap(s.started), OutcomePass, StageNone))
  {
  }

  lemma DoneTailRun(env: Env, s: Sys, l: Label)
    requires DoneTail(s) && ExecRun(env, s, l).Some?
    ensures DoneTail(ExecRun(env, s, l).value) && l.LEnter?
  {
  }

  lemma DoneTailStep(env: Env, s: Sys, l: Label, s': Sys)
    requires Inv(env, s) && DoneTail(s) && Exec(env, s, l) == Some(s')
    ensures !l.LRecord? ==> DoneTail(s')
    ensures l == LRecord(true) ==>
              && |s'.log.recs| == |s.log.recs| + 1
              && s'.log.recs[|s.log.recs|].result == RunResult(Wrap(s.started), OutcomePass, StageNone)
  {
    ExecCases(env, s, l);
    if IsRunLabel(l) {
      DoneTailRun(env, s, l);
    } else if IsProgLabel(l) {
      DoneTailProg(s, l);
    } else if !l.LPlug? {
      SidpLeavesRun(env, s, l);
    }
  }

  lemma DoneTailAt(env: Env, b: seq<Sys>, ls: seq<Label>, k: nat)
    requires Behavior(env, b, ls) && k < |ls| && DoneTail(b[k])
    ensures !ls[k].LRecord? ==> DoneTail(b[k + 1])
    ensures ls[k] == LRecord(true) ==>
              && |b[k + 1].log.recs| == |b[k].log.recs| + 1
              && b[k + 1].log.recs[|b[k].log.recs|].result == RunResult(Wrap(b[k].started), OutcomePass, StageNone)
  {
    Reachable(env, b, ls, k);
    assert StepAt(env, b, ls, k);
    DoneTailStep(env, b[k], ls[k], b[k + 1]);
  }

  lemma {:induction false} DoneStaysDone(env: Env, b: seq<Sys>, ls: seq<Label>, i: nat, j: nat)
    requires Behavior(env, b, ls) && i <= j < |b| && b[i].pp == PTop(Done)
    requires forall k :: i <= k < j ==> !ls[k].LRecord?
    ensures DoneTail(b[j])
  {
    if i == j {
      Reachable(env, b, ls, i);
    } else {
      DoneStaysDone(env, b, ls, i, j - 1);
      DoneTailAt(env, b, ls, j - 1);
    }
  }

  /**
   * A run that reached DONE is recorded PASS and names no stage, whatever the other task does
   * meanwhile: a cancel that arrives before the result is set, between the two critical
   * sections or after them changes nothing.
   */
  lemma DoneIsRecordedPass(env: Env, b: seq<Sys>, ls: seq<Label>, i: nat, j: nat)
    requires Behavior(env, b, ls) && i <= j < |ls| && b[i].pp == PTop(Done)
    requires ls[j] == LRecord(true) && forall k :: i <= k < j ==> !ls[k].LRecord?
    ensures |b[j + 1].log.recs| == |b[j].log.recs| + 1
    ensures b[j + 1].log.recs[|b[j].log.recs|].result == RunResult(Wrap(b[j].started), OutcomePass, StageNone)
  {
    DoneStaysDone(env, b, ls, i, j);
    DoneTailAt(env, b, ls, j);
  }
}
