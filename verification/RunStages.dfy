/** Along every behaviour, a run moves through its stages in order, one after the other. */
module RunStages {
  import opened Base
  import opened Jobs
  import opened Assets
  import opened Controller
  import opened RunProtocol
  import opened RunInvariant
  import opened RunTheorems

  /** Position of the stage a run is in, DONE being the last; -1 outside a run and after a failure. */
  function Level(pp: ProgPc): int {
    match pp
    case PTop(st) => LevelOf(st)
    case PBusy(st) => LevelOf(st)
    case PHash(_, _) => 0
    case PCompare(_, _) => LevelOf(Verify)
    case PEndWant(ret) => if ret == Ok then 8 else -1
    case PEndHolds(ret) => if ret == Ok then 8 else -1
    case PEndRelease(ret) => if ret == Ok then 8 else -1
    case PRecord(ret) => if ret == Ok then 8 else -1
    case _ => -1
  }

  function LevelOf(st: PgState): int { if Working(st) || st.Done? then 9 - Rank(st) else -1 }

  function StageAt(n: nat): PgState
    requires n <= 8
  {
    if n < 8 then ORDER[n] else Done
  }

  /** Within a stage, or from the stage before to the top of the next. */
  predicate Onward(pp: ProgPc, pp': ProgPc) {
    var n := Level(pp');
    0 <= n <= 8 ==>
      || Level(pp) == n
      || (pp' == PTop(StageAt(n)) && (if n == 0 then pp.POwn? else Level(pp) == n - 1))
  }

  lemma EnterOnward(s: Sys)
    requires s.pp.PTop?
    ensures Onward(s.pp, Enter(s).pp)
  {
    var pp' := Enter(s).pp;
    assert pp' == PEndWant(Fail) || pp' == PTop(Error) || Level(pp') == Level(s.pp)
        || (s.pp.st.LoadAsset? && pp' == PTop(PreProgram));
  }

  lemma HashOnward(env: Env, s: Sys, job: Job, readable: bool)
    requires s.pp.PHash? && s.pp.k < |Pins(job)|
    ensures Onward(s.pp, HashNext(env, s, job, readable).pp)
  {
    var pp' := HashNext(env, s, job, readable).pp;
    assert pp'.PHash? || pp' == PTop(Error) || pp' == PTop(PreProgram);
  }

  lemma FinishOnward(s: Sys, ok: bool, flash': Bytes)
    requires s.pp.PBusy? && Working(s.pp.st)
    ensures Onward(s.pp, FinishStage(s, ok, flash').pp)
  {
    var pp' := FinishStage(s, ok, flash').pp;
    assert pp' == PTop(Error) || pp' == PTop(Succ(s.pp.st));
  }

  lemma CompareOnward(s: Sys, job: Job, readOk: bool)
    requires s.pp.PCompare? && s.pp.k < |Pins(job)| && |s.flash| == U32
    ensures Onward(s.pp, CompareNext(s, job, readOk).pp)
  {
    var pp' := CompareNext(s, job, readOk).pp;
    assert pp'.PCompare? || pp' == PTop(Error) || pp' == PTop(SelfTest);
  }

  lemma RunOnward(env: Env, s: Sys, l: Label)
    requires ExecRun(env, s, l).Some?
    ensures Onward(s.pp, ExecRun(env, s, l).value.pp)
  {
    match l
    case LInitRun =>
    case LEnter => EnterOnward(s);
    case LHash(readable) => HashOnward(env, s, s.mgr.job.value.job, readable);
    case LStage(ok, flash') => FinishOnward(s, ok, flash');
    case LCompare(readOk) => CompareOnward(s, s.mgr.job.value.job, readOk);
    case _ =>
  }

  lemma ProgOnward(s: Sys, l: Label)
    requires ExecProg(s, l).Some? && Level(ExecProg(s, l).value.pp) >= 0
    ensures Level(s.pp) == Level(ExecProg(s, l).value.pp)
  {
  }

  /** Every step of either task, and that it belongs to the same run. */
  lemma StepOnward(env: Env, s: Sys, l: Label, s': Sys)
    requires Inv(env, s) && Exec(env, s, l) == Some(s') && Level(s'.pp) >= 0
    ensures Onward(s.pp, s'.pp) && s'.started == s.started && s'.mgr == s.mgr
  {
    ExecCases(env, s, l);
    if IsRunLabel(l) {
      RunFrame(env, s, l);
      RunOnward(env, s, l);
    } else if !l.LPlug? {
      if IsProgLabel(l) {
        ProgOnward(s, l);
      } else {
        SidpLeavesRun(env, s, l);
      }
      FrozenStep(env, s, l, s');
    }
  }

  /** When the run of state i entered each of its stages so far; past VERIFY everything was in place. */
  ghost predicate Entered(env: Env, b: seq<Sys>, i: nat, at: seq<nat>)
    requires i < |b|
  {
    && |at| <= 9 && (forall k :: 0 <= k < |at| ==>
          at[k] <= i && b[at[k]].pp == PTop(StageAt(k)) && b[at[k]].started == b[i].started)
    && (forall k, m :: 0 <= k < m < |at| ==> at[k] < at[m])
    && (|at| > 6 && Safe(b[i]) ==> Verified(env, b[at[6]]) && b[at[6]].mgr == b[i].mgr)
  }

  lemma EnteredStays(env: Env, b: seq<Sys>, i: nat, at: seq<nat>)
    requires 0 < i < |b| && Entered(env, b, i - 1, at) && b[i].started == b[i - 1].started && b[i].mgr == b[i - 1].mgr
    ensures Entered(env, b, i, at)
  {
  }

  lemma EnteredNext(env: Env, b: seq<Sys>, i: nat, at: seq<nat>)
    requires i < |b| && |at| < 9 && Entered(env, b, i, at) && b[i].pp == PTop(StageAt(|at|))
    requires (forall k :: 0 <= k < |at| ==> at[k] < i)
    requires |at| == 6 && Safe(b[i]) ==> Verified(env, b[i])
    ensures Entered(env, b, i, at + [i])
  {
  }

  lemma LevelPassed(pp: ProgPc)
    ensures Level(pp) >= 6 <==> PassedVerify(pp)
  {
  }

  /** VERIFY is left with everything in place. */
  lemma VerifyLeft(env: Env, s: Sys, l: Label, s': Sys)
    requires Inv(env, s) && RunInv(env, s) && Exec(env, s, l) == Some(s') && Level(s.pp) < 6 <= Level(s'.pp) && Safe(s')
    ensures Verified(env, s')
  {
    LevelPassed(s.pp);
    LevelPassed(s'.pp);
    PastVerifyStep(env, s, l, s');
  }

  lemma Extend(env: Env, b: seq<Sys>, i: nat, before: seq<nat>) returns (at: seq<nat>)
    requires 0 < i < |b| && Level(b[i].pp) >= 0 && Entered(env, b, i - 1, before)
    requires |before| == if Level(b[i - 1].pp) >= 0 then Level(b[i - 1].pp) + 1 else 0
    requires Onward(b[i - 1].pp, b[i].pp) && b[i].started == b[i - 1].started && b[i].mgr == b[i - 1].mgr
    requires Level(b[i - 1].pp) < 6 && Level(b[i].pp) == 6 && Safe(b[i]) ==> Verified(env, b[i])
    ensures |at| == Level(b[i].pp) + 1 && Entered(env, b, i, at)
  {
    EnteredStays(env, b, i, before);
    if Level(b[i - 1].pp) == Level(b[i].pp) {
      at := before;
    } else {
      EnteredNext(env, b, i, before);
      at := before + [i];
    }
  }

  lemma OnwardAt(env: Env, b: seq<Sys>, ls: seq<Label>, k: nat)
    requires Behavior(env, b, ls) && k < |ls| && Level(b[k + 1].pp) >= 0
    ensures Onward(b[k].pp, b[k + 1].pp) && b[k + 1].started == b[k].started && b[k + 1].mgr == b[k].mgr
    ensures Level(b[k].pp) < 6 <= Level(b[k + 1].pp) && Safe(b[k + 1]) ==> Verified(env, b[k + 1])
  {
    Reachable(env, b, ls, k);
    assert StepAt(env, b, ls, k);
    StepOnward(env, b[k], ls[k], b[k + 1]);
    if Level(b[k].pp) < 6 <= Level(b[k + 1].pp) && Safe(b[k + 1]) {
      VerifyLeft(env, b[k], ls[k], b[k + 1]);
    }
  }

  lemma {:induction false} StagesEntered(env: Env, b: seq<Sys>, ls: seq<Label>, i: nat) returns (at: seq<nat>)
    requires Behavior(env, b, ls) && i < |b| && Level(b[i].pp) >= 0
    ensures |at| == Level(b[i].pp) + 1 && Entered(env, b, i, at)
  {
    assert i > 0;
    OnwardAt(env, b, ls, i - 1);
    at := [];
    if Level(b[i - 1].pp) >= 0 {
      at := StagesEntered(env, b, ls, i - 1);
    }
    at := Extend(env, b, i, at);
  }

  /**
   * A PASS record means that its run entered all eight stages and DONE, one after the other,
   * and that VERIFY ended with every pinned file in flash.
   */
  lemma PassTookEveryStage(env: Env, b: seq<Sys>, ls: seq<Label>, i: nat) returns (at: seq<nat>)
    requires Behavior(env, b, ls) && i < |ls|
    requires |b[i + 1].log.recs| > |b[i].log.recs|
    requires b[i + 1].log.recs[|b[i].log.recs|].result.outcome == OutcomePass
    ensures |at| == 9 && forall k, m :: 0 <= k < m < 9 ==> at[k] < at[m] <= i
    ensures forall k :: 0 <= k < 9 ==>
              at[k] <= i && b[at[k]].pp == PTop(if k < 8 then ORDER[k] else Done) && b[at[k]].started == b[i].started
    ensures Safe(b[i]) ==> Verified(env, b[at[6]])
  {
    RecordAt(env, b, ls, i);
    at := StagesEntered(env, b, ls, i);
  }

  // ---- failures ----------------------------------------------------------

  /** A run whose stage st failed, up to its record. */
  predicate FailTail(s: Sys, st: PgState) {
    && s.failed == st && Working(st)
    && (s.pp == PTop(Error) || s.pp == PEndWant(Fail) || s.pp == PEndHolds(Fail)
        || ((s.pp == PEndRelease(Fail) || s.pp == PRecord(Fail)) && NamesFailure(s.ctl.last, st)))
  }

  predicate NamesFailure(r: RunResult, st: PgState) {
    (r.outcome == OutcomeFail || r.outcome == OutcomeCancelled) && r.failedStage == ToStage(st)
  }

  predicate FailsAs(s: Sys, s': Sys) {
    s'.pp == PTop(Error) ==> 0 <= Level(s.pp) < 8 && s'.failed == StageAt(Level(s.pp))
  }

  lemma EnterFails(s: Sys)
    requires s.pp.PTop? && s.pp != PTop(Error)
    ensures FailsAs(s, Enter(s))
  {
    var s' := Enter(s);
    assert s'.pp == PTop(Error) ==> s.pp.st == LoadAsset && s'.failed == LoadAsset;
  }

  lemma HashFails(env: Env, s: Sys, job: Job, readable: bool)
    requires s.pp.PHash? && s.pp.k < |Pins(job)|
    ensures FailsAs(s, HashNext(env, s, job, readable))
  {
  }

  lemma FinishFails(s: Sys, ok: bool, flash': Bytes)
    requires s.pp.PBusy? && Working(s.pp.st)
    ensures FailsAs(s, FinishStage(s, ok, flash'))
  {
    assert StageAt(LevelOf(s.pp.st)) == s.pp.st;
  }

  lemma CompareFails(s: Sys, job: Job, readOk: bool)
    requires s.pp.PCompare? && s.pp.k < |Pins(job)| && |s.flash| == U32
    ensures FailsAs(s, CompareNext(s, job, readOk))
  {
  }

  /** A stage that fails is remembered as the failed one. */
  lemma FailureNoted(env: Env, s: Sys, l: Label)
    requires ExecRun(env, s, l).Some? && s.pp != PTop(Error)
    ensures FailsAs(s, ExecRun(env, s, l).value)
  {
    match l
    case LInitRun =>
    case LEnter => EnterFails(s);
    case LHash(readable) => HashFails(env, s, s.mgr.job.value.job, readable);
    case LStage(ok, flash') => FinishFails(s, ok, flash');
    case LCompare(readOk) => CompareFails(s, s.mgr.job.value.job, readOk);
    case _ =>
  }

  lemma ProgNeverFails(s: Sys, l: Label)
    requires ExecProg(s, l).Some?
    ensures !ExecProg(s, l).value.pp.PTop?
  {
  }

  lemma FailureStep(env: Env, s: Sys, l: Label, s': Sys)
    requires Exec(env, s, l) == Some(s') && s.pp != PTop(Error)
    ensures FailsAs(s, s')
  {
    ExecCases(env, s, l);
    if IsRunLabel(l) {
      FailureNoted(env, s, l);
    } else if IsProgLabel(l) {
      ProgNeverFails(s, l);
    } else if !l.LPlug? {
      SidpLeavesRun(env, s, l);
    }
  }

  lemma FailureAt(env: Env, b: seq<Sys>, ls: seq<Label>, k: nat)
    requires Behavior(env, b, ls) && k < |ls| && b[k].pp != PTop(Error) && b[k + 1].pp == PTop(Error)
    ensures 0 <= Level(b[k].pp) < 8 && FailTail(b[k + 1], StageAt(Level(b[k].pp)))
  {
    assert StepAt(env, b, ls, k);
    FailureStep(env, b[k], ls[k], b[k + 1]);
  }

  lemma FailTailProg(s: Sys, l: Label, st: PgState)
    requires StartInv(s) && FailTail(s, st) && ExecProg(s, l).Some?
    ensures var s' := ExecProg(s, l).value;
            && (!l.LRecord? ==> FailTail(s', st))
            && (l == LRecord(true) ==>
                  |s'.log.recs| == |s.log.recs| + 1 && NamesFailure(s'.log.recs[|s.log.recs|].result, st))
  {
  }

  lemma FailTailRun(env: Env, s: Sys, l: Label, st: PgState)
    requires FailTail(s, st) && ExecRun(env, s, l).Some?
    ensures FailTail(ExecRun(env, s, l).value, st) && !l.LRecord?
  {
  }

  lemma FailTailAt(env: Env, b: seq<Sys>, ls: seq<Label>, k: nat, st: PgState)
    requires Behavior(env, b, ls) && k < |ls| && FailTail(b[k], st)
    ensures !ls[k].LRecord? ==> FailTail(b[k + 1], st)
    ensures ls[k] == LRecord(true) ==>
              && |b[k + 1].log.recs| == |b[k].log.recs| + 1
              && NamesFailure(b[k + 1].log.recs[|b[k].log.recs|].result, st)
  {
    Reachable(env, b, ls, k);
    assert StepAt(env, b, ls, k);
    ExecCases(env, b[k], ls[k]);
    if IsRunLabel(ls[k]) {
      FailTailRun(env, b[k], ls[k], st);
    } else if IsProgLabel(ls[k]) {
      FailTailProg(b[k], ls[k], st);
    } else if !ls[k].LPlug? {
      SidpLeavesRun(env, b[k], ls[k]);
    }
  }

  lemma {:induction false} FailureStays(env: Env, b: seq<Sys>, ls: seq<Label>, i: nat, j: nat)
    requires Behavior(env, b, ls) && i < j < |b| && b[i].pp != PTop(Error) && b[i + 1].pp == PTop(Error)
    requires forall k :: i < k < j ==> !ls[k].LRecord?
    ensures 0 <= Level(b[i].pp) < 8 && FailTail(b[j], StageAt(Level(b[i].pp)))
  {
    if j == i + 1 {
      FailureAt(env, b, ls, i);
    } else {
      FailureStays(env, b, ls, i, j - 1);
      FailTailAt(env, b, ls, j - 1, StageAt(Level(b[i].pp)));
    }
  }

  /** A run that failed in a stage is recorded as not passed, under the name of that very stage. */
  lemma FailureIsRecorded(env: Env, b: seq<Sys>, ls: seq<Label>, i: nat, j: nat)
    requires Behavior(env, b, ls) && i < j < |ls| && b[i].pp != PTop(Error) && b[i + 1].pp == PTop(Error)
    requires ls[j] == LRecord(true) && forall k :: i < k < j ==> !ls[k].LRecord?
    ensures 0 <= Level(b[i].pp) < 8 && |b[j + 1].log.recs| == |b[j].log.recs| + 1
    ensures b[j + 1].log.recs[|b[j].log.recs|].result.outcome != OutcomePass
    ensures b[j + 1].log.recs[|b[j].log.recs|].result.failedStage == REPORTED[Level(b[i].pp)]
  {
    FailureStays(env, b, ls, i, j);
    FailTailAt(env, b, ls, j, StageAt(Level(b[i].pp)));
    ReportedStages(StageAt(Level(b[i].pp)));
  }

  // ---- nothing fails without a reason ------------------------------------

  /** Neither the target nor the file system fails this step. */
  predicate Faultless(l: Label) {
    && (l.LHash? ==> l.readable) && (l.LStage? ==> l.ok) && (l.LCompare? ==> l.readOk)
  }

  /** The pinned files are there with their hashes, and the firmware can be programmed. */
  predicate FilesGood(env: Env, s: Sys)
    requires s.mgr.job.Some?
  {
    var job := s.mgr.job.value.job;
    && (forall k :: 0 <= k < |Pins(job)| ==> PinOk(env, s.st.fs, Pins(job)[k]) && s.st.fs[Pins(job)[k].path] != [])
    && (IsCortexM(job) ==> FIRMWARE_PATH in s.st.fs)
    && (IsCortexM(job) ==> |s.st.fs[FIRMWARE_PATH]| >= 4 && |s.st.fs[FIRMWARE_PATH]| % 4 == 0)
  }

  /** The block of an image that VERIFY reads is the one it expects. */
  lemma BlockThere(flash: Bytes, offset: uint32, job: Job, data: Bytes, cursor: nat)
    requires |flash| == U32 && cursor < |data| && (IsCortexM(job) ==> |data| % 4 == 0)
    requires Read(flash, offset, |Padded(data)|) == Padded(data)
    ensures var block := Expected(job, data, cursor, |data|); Read(flash, Wrap(offset + cursor), |block|) == block
  {
    var block := Expected(job, data, cursor, |data|);
    var end := cursor + |block|;
    assert IsCortexM(job) ==> PaddedLen(|data|) == |data|;
    assert data[..cursor] + block == Padded(data)[..end];
    ReadSplit(flash, offset, end, |Padded(data)| - end);
    ReadSplit(flash, offset, cursor, |block|);
    var before, here := Read(flash, offset, cursor), Read(flash, Wrap(offset + cursor), |block|);
    assert Read(flash, offset, |Padded(data)|)[..end] == before + here;
    assert (before + here)[cursor..] == here && (data[..cursor] + block)[cursor..] == block;
  }

  lemma HashAccepts(env: Env, s: Sys)
    requires s.mgr.job.Some? && SafePins(s.mgr.job.value.job) && RunInv(env, s)
    requires s.pp.PHash? && s.pp.k < |Pins(s.mgr.job.value.job)| && FilesGood(env, s)
    ensures HashNext(env, s, s.mgr.job.value.job, true).pp != PTop(Error)
  {
    var pin := Pins(s.mgr.job.value.job)[s.pp.k];
    assert PinOk(env, s.st.fs, pin);
    if |s.pp.got| >= |s.st.fs[pin.path]| {
      assert s.pp.got == s.st.fs[pin.path];
    }
  }

  lemma CompareAccepts(env: Env, s: Sys)
    requires s.mgr.job.Some? && SafePins(s.mgr.job.value.job) && RunInv(env, s) && BoundsInv(s) && AssetInv(env, s)
    requires s.pp.PCompare? && FilesGood(env, s)
    requires InFlash(s, Pins(s.mgr.job.value.job)[s.pp.k])
    ensures CompareNext(s, s.mgr.job.value.job, true).pp != PTop(Error)
  {
    var job := s.mgr.job.value.job;
    var pin := Pins(job)[s.pp.k];
    CortexPins(env, s);
    assert PinOk(env, s.st.fs, pin) && s.st.fs[pin.path] != [];
    assert CompareLen(s, job, s.st.fs[pin.path]) == |s.st.fs[pin.path]|;
    BlockThere(s.flash, pin.offset, job, s.st.fs[pin.path], s.pp.cursor);
  }

  /**
   * As long as nothing outside fails, nobody cancels, the pinned files are what the job pins and
   * VERIFY finds them in flash, no step of a run fails, for both families.
   */
  lemma GoodRunGoesOn(env: Env, b: seq<Sys>, ls: seq<Label>, i: nat)
    requires Behavior(env, b, ls) && i < |ls| && IsRunLabel(ls[i]) && Faultless(ls[i]) && b[i].pp != PTop(Error)
    requires b[i].mgr.job.Some? ==> Safe(b[i]) && FilesGood(env, b[i])
    requires b[i].mgr.job.Some? && b[i].pp.PCompare? && b[i].pp.k < |Pins(b[i].mgr.job.value.job)| ==>
               InFlash(b[i], Pins(b[i].mgr.job.value.job)[b[i].pp.k])
    ensures b[i + 1].pp != PTop(Error) && (!b[i].ctl.cancel ==> b[i + 1].pp != PEndWant(Fail))
  {
    Reachable(env, b, ls, i);
    assert StepAt(env, b, ls, i);
    ExecCases(env, b[i], ls[i]);
    GoodStep(env, b[i], ls[i]);
  }

  lemma GoodStep(env: Env, s: Sys, l: Label)
    requires Inv(env, s) && RunInv(env, s) && Faultless(l) && s.pp != PTop(Error) && ExecRun(env, s, l).Some?
    requires s.mgr.job.Some? ==> Safe(s) && FilesGood(env, s)
    requires s.mgr.job.Some? && s.pp.PCompare? && s.pp.k < |Pins(s.mgr.job.value.job)| ==>
               InFlash(s, Pins(s.mgr.job.value.job)[s.pp.k])
    ensures var pp' := ExecRun(env, s, l).value.pp; pp' != PTop(Error) && (!s.ctl.cancel ==> pp' != PEndWant(Fail))
  {
    RunFrame(env, s, l);
    match l
    case LInitRun =>
    case LEnter =>
    case LHash(readable) =>
      HashAccepts(env, s);
      HashMoves(env, s, readable);
    case LStage(ok, flash') =>
    case LCompare(readOk) =>
      CompareAccepts(env, s);
      CompareMoves(s, readOk);
    case _ =>
  }
}
