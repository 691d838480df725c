/**
 * Why RunTheorems.PassMeansVerified asks for safe pins: the firmware does not check ESP32 image
 * paths, and a job that pins the part file of an upload can pass although no state of its run
 * had the pinned file in flash. The host uploads part of a file, sets a job that pins it,
 * starts a run, and sends the rest once LOAD_ASSET is over.
 */
module UnsafePins {
  import opened Base
  import opened Memory
  import opened Jobs
  import opened Assets
  import opened Controller
  import opened RunProtocol
  import opened RunInvariant
  import opened RunTheorems
  import opened RunStages

  /**
   * An upload of name in two chunks; a job, staged among these assets, that pins its part file,
   * possibly next to other images; and a flash that holds every image once the upload is complete.
   */
  datatype Scene = Scene(
    env: Env, name: string, content: Bytes, d: Decoded, bad: nat, first: Bytes, rest: Bytes, assets: Files,
        flashed: Bytes)
  {
    /** The files of the run once the part file has this content. */
    function With(data: Bytes): Files { assets[PartPath(name) := data] }

    predicate Possible() {
      && ValidName(name) && name != JOB_NAME && first != [] && rest != [] && env.sha(first + rest) != env.sha(first)
      && DecodesTo(env, content, d) && !IsCortexM(d.job)
      && bad < |Pins(d.job)| && Pins(d.job)[bad].path == PartPath(name)
      && STAGED_JOB_PATH in assets && assets[STAGED_JOB_PATH] == content
      && PinsMatch(env, With(first), d.job) && |flashed| == U32
      && (forall k :: 0 <= k < |Pins(d.job)| ==> PinPossible(Pins(d.job)[k]))
    }

    /** A pin is none of the job's own files, is not empty, and is in the flash that PROGRAM leaves. */
    predicate PinPossible(pin: Pin)
      requires |flashed| == U32
    {
      && pin.path != JOB_PATH && pin.path != STAGED_JOB_PATH
      && pin.path in With(first + rest) && With(first + rest)[pin.path] != []
      && var want := Padded(With(first + rest)[pin.path]); Read(flashed, pin.offset, |want|) == want
    }

    /** Flash that does not start like the file. */
    function Flash(): Bytes
      requires first != []
    {
      seq(U32, _ => !first[0])
    }
  }

  /** No state with the bad pin in flash under its pinned hash: it is not there, or it is longer by now. */
  predicate Blind(c: Scene, s: Sys)
    requires c.Possible()
  {
    || s.mgr.job.None?
    || (&& s.mgr.job == Some(c.d) && PartPath(c.name) in s.st.fs
        && (|| s.st.fs[PartPath(c.name)] == c.first + c.rest
            || (s.st.fs[PartPath(c.name)] == c.first && s.flash == c.Flash())))
  }

  lemma BlindMeansUnverified(c: Scene, s: Sys)
    requires c.Possible() && Blind(c, s)
    ensures !Verified(c.env, s)
  {
    if s.mgr.job.Some? {
      var pin := Pins(c.d.job)[c.bad];
      assert pin.sha == c.env.sha(c.first);
      if s.st.fs[PartPath(c.name)] == c.first {
        NotThere(c);
        assert !InFlash(s, pin);
      } else {
        assert !PinOk(c.env, s.st.fs, pin);
      }
    }
  }

  lemma NotThere(c: Scene)
    requires c.Possible()
    ensures Read(c.Flash(), Pins(c.d.job)[c.bad].offset, |Padded(c.first)|) != Padded(c.first)
  {
    var offset := Pins(c.d.job)[c.bad].offset;
    var found := Read(c.Flash(), offset, |Padded(c.first)|);
    assert found[0] == c.Flash()[Wrap(offset)] == !c.first[0];
    Complement(c.first[0]);
  }

  lemma Complement(x: byte)
    ensures !x != x
  {
  }

  // ---- behaviours, step by step ------------------------------------------

  datatype Path = Path(b: seq<Sys>, ls: seq<Label>) {
    predicate Shape() { |b| == |ls| + 1 }

    function Last(): Sys
      requires Shape()
    {
      b[|ls|]
    }

    function Then(l: Label, u: Sys): Path { Path(b + [u], ls + [l]) }
  }

  /** A beginning of a behaviour, through blind states only. */
  ghost predicate Story(c: Scene, p: Path)
    requires c.Possible()
  {
    && p.Shape() && p.b[0] == Boot(c)
    && (forall i :: 0 <= i < |p.ls| ==> StepAt(c.env, p.b, p.ls, i))
    && (forall i :: 0 <= i < |p.b| ==> Blind(c, p.b[i]))
  }

  lemma Continue(c: Scene, p: Path, l: Label, u: Sys)
    requires c.Possible() && Story(c, p) && Exec(c.env, p.Last(), l) == Some(u) && Blind(c, u)
    ensures Story(c, p.Then(l, u)) && p.Then(l, u).Last() == u
  {
    var q := p.Then(l, u);
    assert StepAt(c.env, q.b, q.ls, |p.ls|);
    EarlierSteps(c, p, l, u);
  }

  lemma EarlierSteps(c: Scene, p: Path, l: Label, u: Sys)
    requires c.Possible() && Story(c, p)
    ensures forall i :: 0 <= i < |p.ls| ==> StepAt(c.env, p.Then(l, u).b, p.Then(l, u).ls, i)
  {
    var q := p.Then(l, u);
    forall i | 0 <= i < |p.ls|
      ensures StepAt(c.env, q.b, q.ls, i)
    {
      assert StepAt(c.env, p.b, p.ls, i);
      assert q.b[i] == p.b[i] && q.ls[i] == p.ls[i] && q.b[i + 1] == p.b[i + 1];
    }
  }

  /** One step of the service task, of a stage, and of the rest of the programming task. */
  lemma Serves(c: Scene, p: Path, l: Label, u: Sys) returns (q: Path)
    requires c.Possible() && Story(c, p) && ExecSidp(c.env, p.Last(), l) == Some(u) && Blind(c, u)
    requires !l.LPlug? && !IsRunLabel(l) && !IsProgLabel(l)
    ensures Story(c, q) && q.Last() == u
  {
    ExecCases(c.env, p.Last(), l);
    Continue(c, p, l, u);
    q := p.Then(l, u);
  }

  lemma Runs(c: Scene, p: Path, l: Label, u: Sys) returns (q: Path)
    requires c.Possible() && Story(c, p) && ExecRun(c.env, p.Last(), l) == Some(u) && Blind(c, u) && IsRunLabel(l)
    ensures Story(c, q) && q.Last() == u
  {
    ExecCases(c.env, p.Last(), l);
    Continue(c, p, l, u);
    q := p.Then(l, u);
  }

  lemma Programs(c: Scene, p: Path, l: Label, u: Sys) returns (q: Path)
    requires c.Possible() && Story(c, p) && ExecProg(p.Last(), l) == Some(u) && Blind(c, u) && IsProgLabel(l)
    ensures Story(c, q) && q.Last() == u
  {
    ExecCases(c.env, p.Last(), l);
    Continue(c, p, l, u);
    q := p.Then(l, u);
  }

  // ---- the story ---------------------------------------------------------

  /** At rest: nobody holds the lock or waits for it. */
  predicate Calm(s: Sys) {
    s.owner.None? && s.sp.SIdle? && !s.ctl.cancel && !s.log.failed && !s.ctl.running
  }

  function Boot(c: Scene): Sys
    requires c.Possible()
  {
    Sys(None, SIdle, PWait, false, false, CTL_AT_BOOT, Log(false, []),
        Store(Idle, c.assets), Manager(None, []), Done, 0, c.Flash(), 0, 0)
  }

  function Uploading(c: Scene, data: Bytes): Upload {
    Open(c.name, [], |c.first| + |c.rest|, |data|, data)
  }

  /** The pinned files are these assets, with this content in the part file. */
  predicate FilesAre(c: Scene, fs: Files, data: Bytes) {
    && PartPath(c.name) in fs && fs[PartPath(c.name)] == data
    && forall k :: 0 <= k < |Pins(c.d.job)| ==>
         var path := Pins(c.d.job)[k].path; path in fs && path in c.With(data) && fs[path] == c.With(data)[path]
  }

  lemma UploadBegins(c: Scene) returns (q: Path)
    requires c.Possible()
    ensures Story(c, q)
    ensures q.Last() == Boot(c).(st := Store(Uploading(c, []), c.assets[PartPath(c.name) := []]))
  {
    var s := Boot(c);
    q := Serves(c, Path([s], []), LBegin(c.name, |c.first| + |c.rest|, [], BeginFault(false, true, true, true)),
                s.(st := Store(Uploading(c, []), s.st.fs[PartPath(c.name) := []])));
  }

  /** The first chunk arrives. */
  lemma UploadFirst(c: Scene) returns (q: Path)
    requires c.Possible()
    ensures Story(c, q)
    ensures q.Last() == Boot(c).(st := Store(Uploading(c, c.first), c.With(c.first)))
  {
    var s := Boot(c);
    q := UploadBegins(c);
    var s1 := q.Last();
    var files := s1.st.fs[PartPath(c.name) := c.first];
    assert [] + c.first == c.first;
    assert files == c.With(c.first);
    q := Serves(c, q, LWrite(0, c.first, true), s1.(st := Store(Uploading(c, c.first), files)));
  }

  /** A request takes the lock and passes the test. */
  lemma Admit(c: Scene, p: Path, op: LockedOp) returns (q: Path)
    requires c.Possible() && Story(c, p) && Calm(p.Last())
    requires op.SetJob? || (op.RequestRun? && p.Last().mgr.job.Some?)
    ensures Story(c, q) && q.Last() == p.Last().(owner := Some(Sidp), sp := SAdmitted(op))
  {
    var s := p.Last();
    q := Serves(c, p, LCall(op), s.(sp := SWantLock(op)));
    q := Serves(c, q, LSidpLock, s.(owner := Some(Sidp), sp := SHolds(op)));
    q := Serves(c, q, LSidpTest(true), s.(owner := Some(Sidp), sp := SAdmitted(op)));
  }

  const EFFECT := LSidpEffect(CommitFault(true, true, NoFault), ActivateFault(true, true, NoFault))

  /** Activation accepts the job: the part file has the pinned hash by now. */
  lemma Activates(c: Scene)
    requires c.Possible()
    ensures var files := (c.With(c.first) - {STAGED_JOB_PATH})[JOB_PATH := c.content];
            && Activate(c.env, Manager(None, []), c.With(c.first), c.env.sha(c.content),
                  ActivateFault(true, true, NoFault))
               == ManagerOut(Ok, Manager(Some(c.d), c.env.sha(c.content)), files)
            && FilesAre(c, files, c.first)
  {
    var fs := c.With(c.first);
    FixedPathsNotPart(JOB_PATH);
    PathsDiffer(c);
    assert IsPartPath(PartPath(c.name));
    assert Decodable(c.env, fs, STAGED_JOB_PATH);
    forall k | 0 <= k < |Pins(c.d.job)|
      ensures Pins(c.d.job)[k].path in fs && Pins(c.d.job)[k].path != JOB_PATH
      ensures Pins(c.d.job)[k].path != STAGED_JOB_PATH
    {
      assert c.PinPossible(Pins(c.d.job)[k]);
    }
  }

  lemma SetUnsafeJob(c: Scene, p: Path) returns (q: Path)
    requires c.Possible() && Story(c, p) && Calm(p.Last())
    requires p.Last().mgr == Manager(None, []) && p.Last().flash == c.Flash() && p.Last().st.fs == c.With(c.first)
    ensures Story(c, q) && FilesAre(c, q.Last().st.fs, c.first)
    ensures q.Last() == p.Last().(mgr := Manager(Some(c.d), c.env.sha(c.content)), st := q.Last().st)
    ensures q.Last().st.up == p.Last().st.up
  {
    var s := p.Last();
    q := Admit(c, p, SetJob(c.env.sha(c.content), s.ctl.trigger));
    Activates(c);
    var t := s.(mgr := Manager(Some(c.d), c.env.sha(c.content)),
                st := s.st.(fs := (s.st.fs - {STAGED_JOB_PATH})[JOB_PATH := c.content]));
    EffectOfSetJob(c, s, t);
    q := Serves(c, q, EFFECT, t.(owner := Some(Sidp), sp := SSaveTrigger(s.ctl.trigger)));
    q := JobIsSet(c, q, t);
  }

  lemma EffectOfSetJob(c: Scene, s: Sys, t: Sys)
    requires c.Possible() && s.mgr == Manager(None, [])
    requires Activate(c.env, s.mgr, s.st.fs, c.env.sha(c.content), ActivateFault(true, true, NoFault))
              == ManagerOut(Ok, t.mgr, t.st.fs)
    requires t == s.(mgr := t.mgr, st := s.st.(fs := t.st.fs))
    ensures var op := SetJob(c.env.sha(c.content), s.ctl.trigger);
            ExecSidp(c.env, s.(owner := Some(Sidp), sp := SAdmitted(op)), EFFECT)
            == Some(t.(owner := Some(Sidp), sp := SSaveTrigger(s.ctl.trigger)))
  {
  }

  lemma JobIsSet(c: Scene, p: Path, t: Sys) returns (q: Path)
    requires c.Possible() && Story(c, p)
    requires p.Last() == t.(owner := Some(Sidp), sp := SSaveTrigger(t.ctl.trigger)) && Calm(t)
    ensures Story(c, q) && q.Last() == t
  {
    q := Serves(c, p, LSidpSave(true), t.(owner := Some(Sidp), sp := SRelease(false)));
    q := Serves(c, q, LSidpUnlock, t);
  }

  lemma RequestARun(c: Scene, p: Path) returns (q: Path)
    requires c.Possible() && Story(c, p) && Calm(p.Last()) && p.Last().mgr.job.Some?
    ensures Story(c, q)
    ensures q.Last() == p.Last().(ctl := StartRun(p.Last().ctl, Manual), started := p.Last().started + 1,
              runBit := true)
  {
    var s := p.Last();
    q := Admit(c, p, RequestRun);
    var t := s.(ctl := StartRun(s.ctl, Manual), started := s.started + 1);
    q := Serves(c, q, EFFECT, t.(owner := Some(Sidp), sp := SRelease(true)));
    q := RunIsSignalled(c, q, t);
  }

  lemma RunIsSignalled(c: Scene, p: Path, t: Sys) returns (q: Path)
    requires c.Possible() && Story(c, p) && p.Last() == t.(owner := Some(Sidp), sp := SRelease(true))
    requires t.owner.None? && t.sp.SIdle?
    ensures Story(c, q) && q.Last() == t.(runBit := true)
  {
    q := Serves(c, p, LSidpUnlock, t.(sp := SSignal));
    q := Serves(c, q, LSidpSignal, t.(runBit := true));
  }

  lemma RunBegins(c: Scene, p: Path) returns (q: Path)
    requires c.Possible() && Story(c, p) && p.Last().runBit && p.Last().pp.PWait?
    ensures Story(c, q)
    ensures q.Last() == p.Last().(runBit := false, connBit := false, failed := Done,
              executed := p.Last().executed + 1, pp := PTop(LoadAsset))
  {
    var s := p.Last();
    q := Programs(c, p, LTakeBits, s.(runBit := false, connBit := false, pp := POwn));
    q := Runs(c, q, LInitRun,
              s.(runBit := false, connBit := false, failed := Done, executed := s.executed + 1, pp := PTop(LoadAsset)));
  }

  /** Before the rest arrives: LOAD_ASSET is hashing. */
  predicate Hashing(c: Scene, s: Sys)
    requires c.Possible()
  {
    s.mgr.job == Some(c.d) && FilesAre(c, s.st.fs, c.first) && s.flash == c.Flash()
  }

  /** Where hashing goes after pinned file k. */
  function AfterHash(c: Scene, k: nat): ProgPc {
    if k + 1 < |Pins(c.d.job)| then PHash(k + 1, []) else PTop(PreProgram)
  }

  /** One read of pinned file k, or the comparison of its hash. */
  lemma HashGoesOn(c: Scene, s: Sys, k: nat, got: Bytes)
    requires c.Possible() && Hashing(c, s) && k < |Pins(c.d.job)| && s.pp == PHash(k, got)
    requires got <= c.With(c.first)[Pins(c.d.job)[k].path]
    ensures var data := c.With(c.first)[Pins(c.d.job)[k].path];
            HashNext(c.env, s, c.d.job, true) == s.(pp :=
              if |got| < |data| then PHash(k, data[..|got| + Min(512, |data| - |got|)]) else AfterHash(c, k))
  {
    var data := c.With(c.first)[Pins(c.d.job)[k].path];
    if |got| < |data| {
      var n := Min(512, |data| - |got|);
      assert got + data[|got|..|got| + n] == data[..|got| + n];
    } else {
      assert got == data;
    }
  }

  /** The rest of pinned file k is read, and its hash found to be the pinned one. */
  lemma {:induction false} HashOne(c: Scene, p: Path, k: nat, got: Bytes) returns (q: Path)
    requires c.Possible() && Story(c, p) && Hashing(c, p.Last()) && k < |Pins(c.d.job)| && p.Last().pp == PHash(k, got)
    requires got <= c.With(c.first)[Pins(c.d.job)[k].path]
    ensures Story(c, q) && q.Last() == p.Last().(pp := AfterHash(c, k))
    decreases |c.With(c.first)[Pins(c.d.job)[k].path]| - |got|
  {
    var data := c.With(c.first)[Pins(c.d.job)[k].path];
    q := HashStep(c, p, k, got);
    if |got| < |data| {
      q := HashOne(c, q, k, data[..|got| + Min(512, |data| - |got|)]);
    }
  }

  lemma HashStep(c: Scene, p: Path, k: nat, got: Bytes) returns (q: Path)
    requires c.Possible() && Story(c, p) && Hashing(c, p.Last()) && k < |Pins(c.d.job)| && p.Last().pp == PHash(k, got)
    requires got <= c.With(c.first)[Pins(c.d.job)[k].path]
    ensures var data := c.With(c.first)[Pins(c.d.job)[k].path];
            && Story(c, q)
            && q.Last() == p.Last().(pp :=
                 if |got| < |data| then PHash(k, data[..|got| + Min(512, |data| - |got|)]) else AfterHash(c, k))
  {
    HashGoesOn(c, p.Last(), k, got);
    q := Runs(c, p, LHash(true), HashNext(c.env, p.Last(), c.d.job, true));
  }

  lemma {:induction false} HashFrom(c: Scene, p: Path, k: nat) returns (q: Path)
    requires c.Possible() && Story(c, p) && Hashing(c, p.Last()) && k < |Pins(c.d.job)| && p.Last().pp == PHash(k, [])
    ensures Story(c, q) && q.Last() == p.Last().(pp := PTop(PreProgram))
    decreases |Pins(c.d.job)| - k
  {
    q := HashOne(c, p, k, []);
    if k + 1 < |Pins(c.d.job)| {
      q := HashFrom(c, q, k + 1);
    }
  }

  /** LOAD_ASSET finds the pinned hashes. */
  lemma HashPasses(c: Scene, p: Path) returns (q: Path)
    requires c.Possible() && Story(c, p) && p.Last().pp == PTop(LoadAsset) && !p.Last().ctl.cancel
    requires Hashing(c, p.Last())
    ensures Story(c, q) && q.Last() == p.Last().(pp := PTop(PreProgram))
  {
    q := Runs(c, p, LEnter, p.Last().(pp := PHash(0, [])));
    q := HashFrom(c, q, 0);
  }

  /** The rest of the upload arrives during the run. */
  lemma UploadRest(c: Scene, p: Path) returns (q: Path)
    requires c.Possible() && Story(c, p) && p.Last().sp.SIdle? && p.Last().mgr.job == Some(c.d)
    requires p.Last().st.up == Uploading(c, c.first) && FilesAre(c, p.Last().st.fs, c.first)
    ensures Story(c, q) && q.Last() == p.Last().(st := q.Last().st) && FilesAre(c, q.Last().st.fs, c.first + c.rest)
  {
    var s := p.Last();
    var files := s.st.fs[PartPath(c.name) := c.first + c.rest];
    RestKeepsFiles(c, s.st.fs);
    q := Serves(c, p, LWrite(|c.first|, c.rest, true), s.(st := Store(Uploading(c, c.first + c.rest), files)));
  }

  lemma RestKeepsFiles(c: Scene, fs: Files)
    requires c.Possible() && FilesAre(c, fs, c.first)
    ensures FilesAre(c, fs[PartPath(c.name) := c.first + c.rest], c.first + c.rest)
  {
  }

  /** The pinned file is longer by now, so no state from here on is a verified one. */
  predicate Spoilt(c: Scene, s: Sys) {
    s.mgr.job == Some(c.d) && FilesAre(c, s.st.fs, c.first + c.rest) && !s.ctl.cancel
  }

  /** A stage other than LOAD_ASSET and VERIFY passes, leaving this flash. */
  lemma StagePasses(c: Scene, p: Path, flash': Bytes) returns (q: Path)
    requires c.Possible() && Story(c, p) && Spoilt(c, p.Last()) && p.Last().pp.PTop? && |flash'| == U32
    requires Working(p.Last().pp.st) && !p.Last().pp.st.LoadAsset? && !p.Last().pp.st.Verify?
    ensures Story(c, q) && q.Last() == p.Last().(pp := PTop(Succ(p.Last().pp.st)), flash := flash')
  {
    var s := p.Last();
    q := Runs(c, p, LEnter, s.(pp := PBusy(s.pp.st)));
    q := Runs(c, q, LStage(true, flash'), s.(pp := PTop(Succ(s.pp.st)), flash := flash'));
  }

  lemma CompareMatches(c: Scene, s: Sys, k: nat, cursor: nat)
    requires c.Possible() && Spoilt(c, s) && k < |Pins(c.d.job)| && s.pp == PCompare(k, cursor) && s.flash == c.flashed
    requires cursor < |c.With(c.first + c.rest)[Pins(c.d.job)[k].path]|
    ensures var total := |c.With(c.first + c.rest)[Pins(c.d.job)[k].path]|;
            var next := cursor + Min(total - cursor, 4096);
            CompareNext(s, c.d.job, true) == s.(pp :=
              if next < total then PCompare(k, next)
              else if k + 1 < |Pins(c.d.job)| then PCompare(k + 1, 0) else PTop(SelfTest))
  {
    var pin := Pins(c.d.job)[k];
    assert c.PinPossible(pin);
    BlockThere(c.flashed, pin.offset, c.d.job, c.With(c.first + c.rest)[pin.path], cursor);
  }

  lemma {:induction false} CompareOne(c: Scene, p: Path, k: nat, cursor: nat) returns (q: Path)
    requires c.Possible() && Story(c, p) && Spoilt(c, p.Last()) && p.Last().flash == c.flashed
    requires k < |Pins(c.d.job)| && p.Last().pp == PCompare(k, cursor)
    requires cursor < |c.With(c.first + c.rest)[Pins(c.d.job)[k].path]|
    ensures Story(c, q)
    ensures q.Last() == p.Last().(pp := if k + 1 < |Pins(c.d.job)| then PCompare(k + 1, 0) else PTop(SelfTest))
    decreases |c.With(c.first + c.rest)[Pins(c.d.job)[k].path]| - cursor
  {
    var total := |c.With(c.first + c.rest)[Pins(c.d.job)[k].path]|;
    q := CompareStep(c, p, k, cursor);
    if cursor + Min(total - cursor, 4096) < total {
      q := CompareOne(c, q, k, cursor + Min(total - cursor, 4096));
    }
  }

  lemma CompareStep(c: Scene, p: Path, k: nat, cursor: nat) returns (q: Path)
    requires c.Possible() && Story(c, p) && Spoilt(c, p.Last()) && p.Last().flash == c.flashed
    requires k < |Pins(c.d.job)| && p.Last().pp == PCompare(k, cursor)
    requires cursor < |c.With(c.first + c.rest)[Pins(c.d.job)[k].path]|
    ensures var total := |c.With(c.first + c.rest)[Pins(c.d.job)[k].path]|;
            var next := cursor + Min(total - cursor, 4096);
            && Story(c, q)
            && q.Last() == p.Last().(pp :=
                 if next < total then PCompare(k, next)
                 else if k + 1 < |Pins(c.d.job)| then PCompare(k + 1, 0) else PTop(SelfTest))
  {
    CompareMatches(c, p.Last(), k, cursor);
    q := Runs(c, p, LCompare(true), CompareNext(p.Last(), c.d.job, true));
  }

  lemma {:induction false} CompareFrom(c: Scene, p: Path, k: nat) returns (q: Path)
    requires c.Possible() && Story(c, p) && Spoilt(c, p.Last()) && p.Last().flash == c.flashed
    requires k < |Pins(c.d.job)| && p.Last().pp == PCompare(k, 0)
    ensures Story(c, q) && q.Last() == p.Last().(pp := PTop(SelfTest))
    decreases |Pins(c.d.job)| - k
  {
    assert c.PinPossible(Pins(c.d.job)[k]);
    q := CompareOne(c, p, k, 0);
    if k + 1 < |Pins(c.d.job)| {
      q := CompareFrom(c, q, k + 1);
    }
  }

  /** VERIFY compares the files as they are now. */
  lemma VerifyPasses(c: Scene, p: Path) returns (q: Path)
    requires c.Possible() && Story(c, p) && Spoilt(c, p.Last()) && p.Last().pp == PTop(Verify)
    requires p.Last().flash == c.flashed
    ensures Story(c, q) && q.Last() == p.Last().(pp := PTop(SelfTest))
  {
    q := Runs(c, p, LEnter, p.Last().(pp := PCompare(0, 0)));
    q := CompareFrom(c, q, 0);
  }

  /** From DONE to the point where the record is written. */
  lemma RunEnds(c: Scene, p: Path) returns (q: Path)
    requires c.Possible() && Story(c, p) && Spoilt(c, p.Last()) && p.Last().pp == PTop(Done) && p.Last().owner.None?
    ensures Story(c, q) && Spoilt(c, q.Last()) && q.Last().pp == PRecord(Ok)
    ensures q.Last().log == p.Last().log && q.Last().ctl.last.outcome == OutcomePass
  {
    var s := p.Last();
    q := Runs(c, p, LEnter, s.(pp := PEndWant(Ok)));
    q := Programs(c, q, LProgLock, s.(owner := Some(Prog), pp := PEndHolds(Ok)));
    q := ResultIsSet(c, q);
  }

  lemma ResultIsSet(c: Scene, p: Path) returns (q: Path)
    requires c.Possible() && Story(c, p) && Spoilt(c, p.Last()) && p.Last().pp == PEndHolds(Ok)
    ensures Story(c, q) && Spoilt(c, q.Last()) && q.Last().pp == PRecord(Ok)
    ensures q.Last().log == p.Last().log && q.Last().ctl.last.outcome == OutcomePass
  {
    var s := p.Last();
    var t := s.(ctl := SetResult(s.ctl, Ok, s.failed));
    q := Programs(c, p, LSetResult, t.(pp := PEndRelease(Ok)));
    q := Programs(c, q, LProgUnlock, t.(owner := None, pp := PRecord(Ok)));
  }

  lemma PassIsRecorded(c: Scene, p: Path) returns (q: Path)
    requires c.Possible() && Story(c, p) && Spoilt(c, p.Last()) && p.Last().pp == PRecord(Ok)
    requires p.Last().ctl.last.outcome == OutcomePass
    ensures Story(c, q) && |q.ls| == |p.ls| + 1 && q.b[|p.ls|] == p.Last()
    ensures |q.Last().log.recs| == |p.Last().log.recs| + 1
    ensures q.Last().log.recs[|p.Last().log.recs|].result.outcome == OutcomePass
  {
    var s := p.Last();
    var u := s.(log := AddRun(s.log, RecordOf(s.ctl, Ok, s.mgr.activeSha), true), pp := PCloseWant);
    ExecCases(c.env, s, LRecord(true));
    Continue(c, p, LRecord(true), u);
    q := p.Then(LRecord(true), u);
  }

  /** Everything up to the top of PRE_PROGRAM, with the file complete. */
  lemma BeforeStages(c: Scene) returns (q: Path)
    requires c.Possible()
    ensures Story(c, q) && Spoilt(c, q.Last()) && q.Last().pp == PTop(PreProgram) && q.Last().owner.None?
  {
    q := UploadFirst(c);
    PathsDiffer(c);
    q := SetUnsafeJob(c, q);
    q := RequestARun(c, q);
    q := RunBegins(c, q);
    q := HashPasses(c, q);
    q := UploadRest(c, q);
  }

  lemma PathsDiffer(c: Scene)
    requires c.Possible()
    ensures PartPath(c.name) != STAGED_JOB_PATH
  {
    FixedPathsNotPart(STAGED_JOB_PATH);
    assert IsPartPath(PartPath(c.name));
  }

  /** PROGRAM leaves the longer file in flash. */
  lemma UpToVerify(c: Scene) returns (q: Path)
    requires c.Possible()
    ensures Story(c, q) && Spoilt(c, q.Last()) && q.Last().pp == PTop(Verify) && q.Last().flash == c.flashed
    ensures q.Last().owner.None?
  {
    q := BeforeStages(c);
    q := StagePasses(c, q, c.flashed);
    q := StagePasses(c, q, c.flashed);
    q := StagePasses(c, q, c.flashed);
    q := StagePasses(c, q, c.flashed);
  }

  /** All stages pass. */
  lemma ThroughStages(c: Scene) returns (q: Path)
    requires c.Possible()
    ensures Story(c, q) && Spoilt(c, q.Last()) && q.Last().pp == PTop(Done) && q.Last().owner.None?
  {
    q := UpToVerify(c);
    q := VerifyPasses(c, q);
    q := StagePasses(c, q, c.flashed);
    q := StagePasses(c, q, c.flashed);
  }

  lemma StoryIsBehavior(c: Scene, p: Path)
    requires c.Possible() && Story(c, p)
    ensures Behavior(c.env, p.b, p.ls)
    ensures forall j :: 0 <= j < |p.b| ==> !Verified(c.env, p.b[j])
  {
    assert Boot(c).mgr == LoadAtBoot(c.env, Boot(c).st.fs, false);
    forall j | 0 <= j < |p.b|
      ensures !Verified(c.env, p.b[j])
    {
      BlindMeansUnverified(c, p.b[j]);
    }
  }

  /**
   * For every environment and every job that pins the part file of an upload, alone or next to
   * other images, there is a behaviour from boot whose last step appends a PASS record, although
   * in no state of it is every pinned file in flash with its pinned hash.
   */
  lemma UnverifiedPass(c: Scene) returns (b: seq<Sys>, ls: seq<Label>)
    requires c.Possible()
    ensures !SafePins(c.d.job)
    ensures Behavior(c.env, b, ls) && |ls| > 0
    ensures var i := |ls| - 1;
            && |b[i + 1].log.recs| == |b[i].log.recs| + 1
            && b[i + 1].log.recs[|b[i].log.recs|].result.outcome == OutcomePass
    ensures forall j :: 0 <= j < |b| ==> !Verified(c.env, b[j])
  {
    assert IsPartPath(Pins(c.d.job)[c.bad].path);
    var p := ThroughStages(c);
    p := RunEnds(c, p);
    p := PassIsRecorded(c, p);
    StoryIsBehavior(c, p);
    b, ls := p.b, p.ls;
  }

  // ---- an example --------------------------------------------------------

  const A_PATH := "/data/a.bin"
  const X_PATH := "/data/x.part"

  /** A job that pins the part file of x next to an ordinary image, with the hash being the content. */
  function TwoImages(a: Bytes, first: Bytes): Decoded {
    var images := [Image(A_PATH, 0, a), Image(X_PATH, 0x1000, first)];
    var esp := Esp32("esp32", 115200, images, None, false, false);
    Decoded(Job(1, "job", Some(Target("target", None, Some(esp), [], [])), None, None), None)
  }

  lemma TwoImagesAccepted(a: Bytes, first: Bytes)
    ensures Accepted(TwoImages(a, first).job, TwoImages(a, first).blob) && !IsCortexM(TwoImages(a, first).job)
    ensures Pins(TwoImages(a, first).job) == [Pin(A_PATH, 0, a), Pin(X_PATH, 0x1000, first)]
  {
  }

  lemma BothInFlash(mem: Bytes, a: Bytes, at: nat, b: Bytes) returns (flash: Bytes)
    requires |mem| == U32 && |a| <= at && at + |b| < U32
    ensures |flash| == U32 && Read(flash, 0, |a|) == a && Read(flash, at, |b|) == b
  {
    var one := Poke(mem, 0, a);
    flash := Poke(one, at, b);
    ReadPoke(mem, 0, a);
    PokeApart(one, at, b, 0, |a|);
    ReadPoke(one, at, b);
  }

  lemma ExamplePaths()
    ensures PartPath("x") == X_PATH && ValidName("x") && A_PATH != X_PATH
    ensures A_PATH != STAGED_JOB_PATH && X_PATH != STAGED_JOB_PATH && A_PATH != JOB_PATH && X_PATH != JOB_PATH
  {
    assert A_PATH[6] == 'a' && X_PATH[6] == 'x' && STAGED_JOB_PATH[6] == 'j' && JOB_PATH[6] == 'j';
  }

  /** Such scenes exist for all small contents, also with a second, ordinary image. */
  lemma SuchAScene(mem: Bytes, content: Bytes, a: Bytes, first: Bytes, rest: Bytes) returns (c: Scene)
    requires |mem| == U32 && content != [] && 0 < |a| <= 1024 && 0 < |first| <= 1024 && 0 < |rest| <= 1024
    ensures c.Possible() && |Pins(c.d.job)| == 2 && c.first == first && c.rest == rest
  {
    var d := TwoImages(a, first);
    var flash := BothInFlash(mem, Padded(a), 0x1000, Padded(first + rest));
    ExamplePaths();
    TwoImagesAccepted(a, first);
    c := Scene(Env(x => x, x => if x == content then Some(d) else None), "x", content, d, 1, first, rest,
               map[A_PATH := a, STAGED_JOB_PATH := content], flash);
    assert |first + rest| > |first|;
    assert forall k :: 0 <= k < |Pins(d.job)| ==> c.PinPossible(Pins(d.job)[k]);
  }
}
