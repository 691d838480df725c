/**
 * The stage machine (main/prog/offline_flasher.cpp) over both backends. The active job and the
 * files are fixed for a run, which RunTheorems.NothingChangesUnderARun justifies.
 */
module Flasher {
  import opened Base
  import opened Memory
  import opened Jobs
  import opened Assets
  import opened AssetObjects
  import opened Controller
  import opened Procedures
  import opened Esp32Flash
  import opened Esp32Backend
  import opened SwdLayout
  import opened SwdTarget
  import opened SwdProg

  /** What a run reads: the active job with its configuration, and the asset directory. */
  datatype RunInput = RunInput(env: Env, job: Option<Decoded>, cfg: ConfigView, files: Files) {
    /** The configuration is the one published for the job. */
    ghost predicate Consistent() {
      job.Some? ==>
        && Accepted(job.value.job, job.value.blob) && BlobFits(job.value.blob)
        && cfg == ConfigOf(job.value.job, job.value.blob)
    }

    /** A Cortex-M job comes with an algorithm. */
    predicate HasAlgorithm() {
      job.Some? && cfg.family.SwdCortexM? ==> Usable(cfg)
    }

    /** This flash holds everything the configuration names. */
    predicate Flashed(flash: Bytes) {
      if cfg.family.Esp32Serial? then AllHold(flash, files, cfg.images)
      else
        && Usable(cfg) && cfg.algo.src.flashStart.Some? && FIRMWARE_PATH in files && |flash| == U32
        && Read(flash, cfg.algo.src.flashStart.value, |files[FIRMWARE_PATH]|) == files[FIRMWARE_PATH]
    }

    /** Nothing in the job stands in the way of an ESP32 run against this probe. */
    predicate EspRunnable(p: Probe)
      requires job.Some?
    {
      && Connects(cfg, files, p) && LimitOf(cfg, p).value <= EXACT_LIMIT
      && AllCertain(StepsOf(job.value.job.preProgram), SerialClosed)
      && AllCertain(StepsOf(job.value.job.postProgram), SerialReset)
    }

    /** Nothing in the job stands in the way of a Cortex-M run. */
    predicate SwdRunnable()
      requires job.Some? && Usable(cfg)
    {
      var fa := cfg.algo.src;
      && CanInit(cfg) && CanErase(cfg) && CanProgram(cfg, files, FIRMWARE_PATH)
      && fa.flashStart.value + |files[FIRMWARE_PATH]| <= fa.flashEnd.value
      && AllCertain(StepsOf(job.value.job.preProgram), Swd)
      && AllCertain(StepsOf(job.value.job.postProgram), Swd)
    }
  }

  function StepsOf(p: Option<seq<Step>>): seq<Step> {
    if p.None? then [] else p.value
  }

  /** Every step of the procedure was tried, in order, and none failed that may not. */
  predicate RanThrough(p: Option<seq<Step>>, ran: seq<Ran>) {
    |ran| == |StepsOf(p)| && Carried(StepsOf(p), ran)
  }

  /** The simple tests of a job, each answered with zero. */
  function SimpleTests(ts: seq<TestItem>): seq<Call> {
    if ts == [] then []
    else
      var last := ts[|ts| - 1];
      SimpleTests(ts[..|ts| - 1]) + (if last.kind == 0 then [SelfTestCall(last.addr, 0)] else [])
  }

  /** They are found at these positions of the list, upward, and every simple test is among them. */
  lemma {:induction false} SimpleTestsAre(ts: seq<TestItem>) returns (at: seq<nat>)
    ensures |at| == |SimpleTests(ts)|
    ensures forall k :: 0 <= k < |at| ==> at[k] < |ts| && SimpleTests(ts)[k] == SelfTestCall(ts[at[k]].addr, 0)
    ensures forall k, l :: 0 <= k < l < |at| ==> at[k] < at[l]
    ensures forall i :: 0 <= i < |ts| ==> (ts[i].kind == 0 <==> i in at)
  {
    at := [];
    if ts != [] {
      var init, last := ts[..|ts| - 1], |ts| - 1;
      at := SimpleTestsAre(init);
      if ts[last].kind == 0 {
        at := at + [last];
      }
      assert forall i :: 0 <= i < last ==> ts[i] == init[i];
    }
  }

  /** The tests a target of this configuration runs: none without a test entry, and none on an ESP32. */
  function TestsOf(cfg: ConfigView): seq<Call> {
    if cfg.family.SwdCortexM? && Usable(cfg) && cfg.algo.src.pcVerify.Some? then SimpleTests(cfg.tests) else []
  }

  /** This pinned file is in flash where the job wants it. */
  predicate PinHeld(i: RunInput, flash: Bytes, pin: Pin) {
    && pin.path in i.files && |flash| == U32
    && (if i.cfg.family.Esp32Serial? then Holds(flash, pin.offset, Padded(i.files[pin.path]))
        else Read(flash, pin.offset, |i.files[pin.path]|) == i.files[pin.path])
  }

  /** What the stage machine programs and reads back is exactly what the job pins, no more and no less. */
  lemma FlashedIffPinsHeld(i: RunInput, flash: Bytes)
    requires i.Consistent() && i.job.Some? && |flash| == U32
    requires i.cfg.family.SwdCortexM? ==> i.cfg.algo.src.flashStart.Some?
    ensures i.Flashed(flash) <==>
            forall k :: 0 <= k < |Pins(i.job.value.job)| ==> PinHeld(i, flash, Pins(i.job.value.job)[k])
  {
    var pins, images := Pins(i.job.value.job), i.cfg.images;
    PinsAre(i.job.value.job);
    ConfigTellsJob(i.job.value.job, i.job.value.blob);
    if i.cfg.family.Esp32Serial? {
      assert |images| == |pins| && forall k :: 0 <= k < |pins| ==>
          images[k].path == pins[k].path && images[k].offset == pins[k].offset;
      if forall k :: 0 <= k < |pins| ==> PinHeld(i, flash, pins[k]) {
        assert forall k :: 0 <= k < |images| ==> PinHeld(i, flash, pins[k]);
      }
    } else {
      assert pins[0].offset == i.cfg.algo.src.flashStart.value;
    }
  }

  /** A faithful world carries out every call, answers as this probe says, and nobody cancels. */
  datatype World = World(faithful: bool, probe: Probe)

  /** Nothing inside or outside the job stands in the way of a run. */
  predicate Benign(i: RunInput, w: World) {
    && w.faithful && i.job.Some? && PinsMatch(i.env, i.files, i.job.value.job)
    && (if i.cfg.family.Esp32Serial? then i.EspRunnable(w.probe) else Usable(i.cfg) && i.SwdRunnable())
  }

  /** Procedure steps and self tests: at the start of a run, during it, and all of them. */
  datatype Account = Account(
    started: seq<Ran>, tested: seq<Call>, pre: seq<Ran>, post: seq<Ran>, history: seq<Ran>, tests: seq<Call>)
  {
    /** The procedures and tests of the stages before st have been carried out, and nothing else. */
    predicate Balances(i: RunInput, st: PgState) {
      && (Rank(st) <= Rank(Detect) ==> i.job.Some? && RanThrough(i.job.value.job.preProgram, pre))
      && (st.Done? ==> RanThrough(i.job.value.job.postProgram, post))
      && history == started + (if Rank(st) <= Rank(Detect) then pre else []) + (if st.Done? then post else [])
      && tests == tested + (if Rank(st) < Rank(SelfTest) then TestsOf(i.cfg) else [])
    }

    /** The account after passing stage st, whose procedure, if it has one, ran like this. */
    function After(i: RunInput, st: PgState, ran: seq<Ran>): Account {
      match st
      case PreProgram => this.(pre := ran, history := history + ran)
      case PostProgram => this.(post := ran, history := history + ran)
      case SelfTest => this.(tests := tests + TestsOf(i.cfg))
      case _ => this
    }
  }

  /** The procedure of stage st ran through. */
  predicate RanFor(i: RunInput, st: PgState, ran: seq<Ran>) {
    && i.job.Some?
    && (st.PreProgram? ==> RanThrough(i.job.value.job.preProgram, ran))
    && (st.PostProgram? ==> RanThrough(i.job.value.job.postProgram, ran))
  }

  lemma StillBalances(i: RunInput, st: PgState, a: Account, ran: seq<Ran>)
    requires Working(st) && a.Balances(i, st) && RanFor(i, st, ran)
    ensures a.After(i, st, ran).Balances(i, Succ(st))
  {
  }

  class OfflineFlasher {
    const esp: Backend
    const swd: Programmer
    const port: Port
    var state: PgState
    var failed: PgState
    var family: Option<Family>      // the backend selected last
    var written: nat
    var attempts: nat               // detect attempts of this run
    ghost var started: seq<Ran>     // procedure steps and self tests when the run started
    ghost var tested: seq<Call>
    ghost var preRan: seq<Ran>      // steps of this run's procedures
    ghost var postRan: seq<Ran>
    ghost var atVerify: Bytes       // flash of the target when VERIFY last ended; set there only

    /** Only the selected backend can hold its transport. */
    ghost predicate Valid()
      reads `family, esp, esp.loader, swd, swd.target
    {
      && esp.Valid() && swd.Valid()
      && (esp.connected ==> family == Some(Esp32Serial)) && (swd.driven ==> family == Some(SwdCortexM))
    }

    /** Neither transport is held. */
    ghost predicate Released()
      reads esp, swd
    {
      !esp.connected && !swd.driven
    }

    /** Flash of the target the job is for. */
    ghost function TargetFlash(cfg: ConfigView): Bytes
      reads esp.loader, swd.target
    {
      if cfg.family.Esp32Serial? then esp.loader.flash else swd.target.flash
    }

    /** The serial backend is connected for this job from DETECT on. */
    ghost predicate EspReady(i: RunInput, benign: bool, st: PgState)
      reads esp, esp.loader
    {
      && esp.For(i.cfg, i.files)
      && (benign && esp.connected ==> esp.flashLimit <= EXACT_LIMIT)
      && (st.PreProgram? ==> !esp.connected)
      && (i.cfg.family.Esp32Serial? && 1 < Rank(st) < Rank(Detect) ==> esp.connected)
    }

    /** The SWD programmer is laid out from DETECT on; ERASE leaves the device blank for PROGRAM. */
    ghost predicate SwdReady(i: RunInput, st: PgState)
      requires swd.Valid()
      reads `written, swd, swd.target
    {
      && (st.Erase? || st.Program? || st.Verify? || st.SelfTest? ==> swd.LaidOut(i.cfg) && swd.target.flight.None?)
      && (st.Erase? ==> swd.state == Initialised)
      && (st.Program? || st.Verify? ==> swd.state == AlgUninited)
      && (st.Program? ==>
            && i.cfg.algo.src.flashStart.Some? && i.cfg.algo.src.flashEnd.Some?
            && Blank(swd.target.flash, i.cfg.algo.src.flashStart.value, i.cfg.algo.src.flashEnd.value))
      && (st.Verify? ==> FIRMWARE_PATH in i.files && written == |i.files[FIRMWARE_PATH]|)
      && (st.Verify? ==> i.cfg.algo.src.flashStart.Some?)
      && (st.SelfTest? ==> swd.InStep(i.cfg, EraseMode))
    }

    ghost function Books(): Account
      reads `started, `tested, `preRan, `postRan, port, swd.target
    {
      Account(started, tested, preRan, postRan, port.history, swd.target.tests)
    }

    /** The procedures and tests of the stages before st have been carried out, and nothing else. */
    ghost predicate Accounted(i: RunInput, st: PgState)
      reads `started, `tested, `preRan, `postRan, port, swd.target
    {
      Books().Balances(i, st)
    }

    /** What holds when a stage is entered. */
    ghost predicate Ready(i: RunInput, benign: bool, st: PgState)
      reads `family, `written, `atVerify, esp, esp.loader, swd, swd.target
    {
      && Valid()
      && (st.LoadAsset? || st.Done? ==> Released())
      && (!st.LoadAsset? ==> i.job.Some? && PinsMatch(i.env, i.files, i.job.value.job))
      && (Working(st) && !st.LoadAsset? ==>
            && family == Some(i.cfg.family) && EspReady(i, benign, st)
            && (i.cfg.family.SwdCortexM? ==> SwdReady(i, st)))
      && (st.Verify? && benign ==> i.Flashed(TargetFlash(i.cfg)))
      && (st.SelfTest? || st.PostProgram? || st.Done? ==> i.Flashed(atVerify))
    }

    constructor (esp: Backend, swd: Programmer, port: Port)
      requires esp.Valid() && swd.Valid() && !esp.connected && !swd.driven
      ensures Valid() && this.esp == esp && this.swd == swd && this.port == port
    {
      this.esp, this.swd, this.port, state, failed := esp, swd, port, Detect, Done;
      family, written, attempts, atVerify := None, 0, 0, [];
      started, tested, preRan, postRan := [], [], [], [];
    }

    method Release()
      requires Valid()
      modifies esp, esp.loader`open, swd`driven
      ensures Valid() && Released()
    {
      if family == Some(Esp32Serial) {
        esp.ReleaseTransport();
      } else if family == Some(SwdCortexM) {
        swd.ReleasePins();
      }
    }

    method Start()
      requires Valid()
      modifies this, esp, esp.loader`open, swd`driven
      ensures Valid() && Released() && state == LoadAsset && failed == Done && attempts == 0
      ensures started == port.history && tested == swd.target.tests
    {
      Release();
      failed, state, attempts := Done, LoadAsset, 0;
      started, tested := port.history, swd.target.tests;
    }

    method OnLoadAsset(i: RunInput, w: World, ghost benign: bool)
      requires (benign ==> Benign(i, w)) && Ready(i, benign, LoadAsset)
      modifies `state, `family
      ensures state == Error || (state == PreProgram && Ready(i, benign, PreProgram))
      ensures Valid() && (benign ==> state == PreProgram)
    {
      if i.job.None? {
        state := Error;
        return;
      }
      var readable: bool := *;
      var r := VerifyJobImages(i.env, i.files, i.job.value.job, _ => readable || w.faithful);
      if r != Ok {
        state := Error;
        return;
      }
      family, state := Some(i.cfg.family), PreProgram;
    }

    ghost function Connection(): Link
      reads `family, esp
    {
      if family != Some(Esp32Serial) then Swd else if esp.connected then SerialReset else SerialClosed
    }

    /**
     * begin_session, then the job's procedure if it has one. Its register writes, and the
     * firmware a reset lets run, may do anything to the flash.
     */
    method Procedure(p: Option<seq<Step>>, faithful: bool) returns (ok: bool, ghost ran: seq<Ran>)
      requires Valid() && family.Some?
      modifies port, esp.loader`flash, swd`driven, swd.target`calls, swd.target`flight, swd.target`flash
      ensures Valid() && port.history == old(port.history) + ran
      ensures ok ==> RanThrough(p, ran) && Runnable(StepsOf(p), Connection())
      ensures ok && family == Some(SwdCortexM) ==> swd.target.calls == old(swd.target.calls) + [Reset]
      ensures faithful && AllCertain(StepsOf(p), Connection()) ==> ok
    {
      var pinsSet: bool := *;
      var r := if pinsSet || faithful then Ok else Fail;
      var link := if esp.connected then SerialReset else SerialClosed;
      if family != Some(Esp32Serial) {
        assert family.value.SwdCortexM?;
        link := Swd;
        r := swd.BeginSession(faithful);
      }
      esp.loader.RewriteFlash();
      swd.target.RewriteFlash();
      ran := [];
      if r != Ok || p.None? {
        return r == Ok, ran;
      }
      r, ran := port.Execute(p.value, link, faithful);
      ok := r == Ok;
    }

    method OnPreProgram(i: RunInput, w: World, ghost benign: bool)
      requires (benign ==> Benign(i, w)) && Ready(i, benign, PreProgram)
      modifies `state, `preRan, port, esp.loader`flash, swd`driven
      modifies swd.target`calls, swd.target`flight, swd.target`flash
      ensures state == Error || (state == Detect && Ready(i, benign, Detect))
      ensures Valid() && (benign ==> state == Detect)
      ensures state == Detect ==> port.history == old(port.history) + preRan
      ensures state == Detect ==> RanThrough(i.job.value.job.preProgram, preRan)
    {
      var ok;
      ok, preRan := Procedure(i.job.value.job.preProgram, w.faithful);
      state := if ok then Detect else Error;
    }

    method DetectOnce(i: RunInput, w: World, ghost benign: bool) returns (r: Err, ghost next: PgState)
      requires (benign ==> Benign(i, w)) && i.HasAlgorithm() && Ready(i, benign, Detect)
      modifies esp, esp.loader`open, swd
      modifies swd.target`ram, swd.target`seen, swd.target`flash, swd.target`flight, swd.target`calls
      ensures Ready(i, benign, next) && next == (if r == Ok then Erase else Detect)
      ensures benign ==> r == Ok
    {
      if i.cfg.family.Esp32Serial? {
        var any: Probe := *;
        var p := if w.faithful then w.probe else any;
        r := esp.Connect(i.cfg, i.files, p);
      } else {
        r := swd.Init(i.cfg, w.faithful);
      }
      next := if r == Ok then Erase else Detect;
    }

    /** The first attempt and up to ten more. */
    method DetectLoop(i: RunInput, w: World, ghost benign: bool) returns (r: Err, retries: nat, ghost next: PgState)
      requires (benign ==> Benign(i, w)) && i.HasAlgorithm() && Ready(i, benign, Detect)
      modifies esp, esp.loader`open, swd
      modifies swd.target`ram, swd.target`seen, swd.target`flash, swd.target`flight, swd.target`calls
      ensures Ready(i, benign, next) && next == (if r == Ok then Erase else Detect)
      ensures retries <= 10 && (benign ==> r == Ok) && (r != Ok ==> retries == 10)
    {
      r, next := DetectOnce(i, w, benign);
      var maxRetry := 10;
      while r != Ok && maxRetry > 0
        invariant Ready(i, benign, next) && next == (if r == Ok then Erase else Detect)
        invariant 0 <= maxRetry <= 10 && (benign ==> r == Ok)
      {
        maxRetry := maxRetry - 1;
        r, next := DetectOnce(i, w, benign);
      }
      retries := 10 - maxRetry;
    }

    method OnDetect(i: RunInput, w: World, ghost benign: bool)
      requires (benign ==> Benign(i, w)) && i.HasAlgorithm() && Ready(i, benign, Detect) && attempts == 0
      modifies `state, `attempts, esp, esp.loader`open, swd
      modifies swd.target`ram, swd.target`seen, swd.target`flash, swd.target`flight, swd.target`calls
      ensures state == Error || (state == Erase && Ready(i, benign, Erase))
      ensures Valid() && attempts <= 11 && (benign ==> state == Erase)
    {
      var r, retries;
      ghost var next;
      r, retries, next := DetectLoop(i, w, benign);
      attempts, state := 1 + retries, if r != Ok then Error else Erase;
    }

    method EraseSwd(i: RunInput, w: World, ghost benign: bool) returns (ok: bool)
      requires (benign ==> Benign(i, w)) && Ready(i, benign, Erase) && i.cfg.family.SwdCortexM?
      modifies swd, swd.target`ram, swd.target`seen, swd.target`flash, swd.target`flight, swd.target`calls
      ensures Valid() && (ok ==> Ready(i, benign, Program)) && (benign ==> ok)
    {
      var refused: bool := *;
      var r := swd.Erase(i.cfg, refused && !w.faithful, w.faithful);
      ok := r == Ok;
    }

    method OnErase(i: RunInput, w: World, ghost benign: bool)
      requires (benign ==> Benign(i, w)) && Ready(i, benign, Erase)
      modifies `state, swd, swd.target`ram, swd.target`seen, swd.target`flash, swd.target`flight, swd.target`calls
      ensures state == Error || (state == Program && Ready(i, benign, Program))
      ensures Valid() && (benign ==> state == Program)
    {
      if i.cfg.family.Esp32Serial? {
        state := Program;
        return;
      }
      var ok := EraseSwd(i, w, benign);
      state := if ok then Program else Error;
    }

    method ProgramEsp(i: RunInput, w: World, ghost benign: bool) returns (ok: bool)
      requires (benign ==> Benign(i, w)) && Ready(i, benign, Program) && i.cfg.family.Esp32Serial?
      modifies `written, esp, esp.loader, esp.block
      ensures Valid() && (ok ==> Ready(i, benign, Verify)) && (benign ==> ok)
    {
      var r;
      r, written := esp.Program(i.cfg, i.files, w.probe, w.faithful);
      ok := r == Ok;
    }

    method ProgramSwd(i: RunInput, w: World, ghost benign: bool) returns (ok: bool)
      requires (benign ==> Benign(i, w)) && i.HasAlgorithm() && Ready(i, benign, Program) && i.cfg.family.SwdCortexM?
      modifies `written, swd, swd.target`ram, swd.target`seen, swd.target`flash, swd.target`flight, swd.target`calls
      ensures Valid() && (ok ==> Ready(i, benign, Verify)) && (benign ==> ok)
    {
      ghost var blank := swd.target.flash;
      var r;
      r, written := swd.ProgramFile(i.cfg, i.files, FIRMWARE_PATH, w.faithful);
      ok := r == Ok;
      if benign {
        NorOnBlank(blank, i.cfg.algo.src.flashStart.value, i.files[FIRMWARE_PATH]);
        ReadAt(swd.target.flash, i.cfg.algo.src.flashStart.value, |i.files[FIRMWARE_PATH]|);
      }
    }

    method OnProgram(i: RunInput, w: World, ghost benign: bool)
      requires (benign ==> Benign(i, w)) && i.HasAlgorithm() && Ready(i, benign, Program)
      modifies `state, `written, esp, esp.loader, esp.block, swd
      modifies swd.target`ram, swd.target`seen, swd.target`flash, swd.target`flight, swd.target`calls
      ensures state == Error || (state == Verify && Ready(i, benign, Verify))
      ensures Valid() && (benign ==> state == Verify)
    {
      var ok;
      if i.cfg.family.Esp32Serial? {
        ok := ProgramEsp(i, w, benign);
      } else {
        ok := ProgramSwd(i, w, benign);
      }
      state := if ok then Verify else Error;
    }

    method VerifyEsp(i: RunInput, w: World, ghost benign: bool) returns (ok: bool)
      requires (benign ==> Benign(i, w)) && Ready(i, benign, Verify) && i.cfg.family.Esp32Serial?
      modifies `atVerify, esp, esp.loader`open, esp.block
      ensures Valid() && (ok ==> Ready(i, benign, SelfTest) && atVerify == TargetFlash(i.cfg)) && (benign ==> ok)
    {
      var r := esp.Verify(i.cfg, i.files, w.probe, w.faithful);
      ok, atVerify := r == Ok, esp.loader.flash;
    }

    method VerifySwd(i: RunInput, w: World, ghost benign: bool) returns (ok: bool)
      requires (benign ==> Benign(i, w)) && i.HasAlgorithm() && Ready(i, benign, Verify) && i.cfg.family.SwdCortexM?
      modifies `atVerify, swd`state
      ensures Valid() && (ok ==> Ready(i, benign, SelfTest) && atVerify == TargetFlash(i.cfg)) && (benign ==> ok)
    {
      assert i.files[FIRMWARE_PATH][..written] == i.files[FIRMWARE_PATH];
      var r := swd.VerifyFile(i.cfg, i.files, FIRMWARE_PATH, written, w.faithful);
      ok, atVerify := r == Ok, swd.target.flash;
    }

    method OnVerify(i: RunInput, w: World, ghost benign: bool)
      requires (benign ==> Benign(i, w)) && i.HasAlgorithm() && Ready(i, benign, Verify)
      modifies `state, `atVerify, esp, esp.loader`open, esp.block, swd`state
      ensures state == Error || (state == SelfTest && Ready(i, benign, SelfTest) && atVerify == TargetFlash(i.cfg))
      ensures Valid() && (benign ==> state == SelfTest)
    {
      var ok;
      if i.cfg.family.Esp32Serial? {
        ok := VerifyEsp(i, w, benign);
      } else {
        ok := VerifySwd(i, w, benign);
      }
      state := if ok then SelfTest else Error;
    }

    /** Runs the simple tests in order; unsupported tests end the list without an error. */
    method SwdSelfTests(cfg: ConfigView, faithful: bool) returns (ok: bool)
      requires swd.Valid() && swd.LaidOut(cfg) && swd.InStep(cfg, EraseMode) && swd.target.flight.None?
      modifies swd, swd.target
      ensures swd.Valid() && (faithful && CanBracket(cfg) ==> ok)
      ensures ok ==> swd.target.tests == old(swd.target.tests) +
                       (if cfg.algo.src.pcVerify.Some? then SimpleTests(cfg.tests) else [])
    {
      for k := 0 to |cfg.tests|
        invariant swd.Valid() && swd.LaidOut(cfg) && swd.InStep(cfg, EraseMode) && swd.target.flight.None?
        invariant swd.target.tests == old(swd.target.tests) + SimpleTests(cfg.tests[..k])
        invariant cfg.algo.src.pcVerify.None? ==> SimpleTests(cfg.tests[..k]) == []
      {
        assert cfg.tests[..k + 1][..k] == cfg.tests[..k];
        if cfg.tests[k].kind == 0 {
          var r, returned := swd.SelfTest(cfg, cfg.tests[k].addr, faithful);
          if r == NotSupported {
            return true;
          }
          if r != Ok || returned != 0 {
            return false;
          }
        }
      }
      assert cfg.tests[..|cfg.tests|] == cfg.tests;
      ok := true;
    }

    /** The serial backend supports no test; either way a passed stage ends with a reset into the new firmware. */
    method OnSelfTest(i: RunInput, w: World, ghost benign: bool)
      requires (benign ==> Benign(i, w)) && Ready(i, benign, SelfTest)
      modifies `state, esp.loader`flash, swd, swd.target
      ensures state == Error || (state == PostProgram && Ready(i, benign, PostProgram))
      ensures Valid() && (benign ==> state == PostProgram)
      ensures state == PostProgram ==> swd.target.tests == old(swd.target.tests) + TestsOf(i.cfg)
      ensures state == PostProgram && i.cfg.family.SwdCortexM? ==>
                swd.target.calls != [] && swd.target.calls[|swd.target.calls| - 1] == Reset
    {
      var ok := true;
      if i.cfg.family.SwdCortexM? {
        ok := SwdSelfTests(i.cfg, w.faithful);
        if ok {
          swd.TriggerReset();
          swd.target.RewriteFlash();
        }
      } else {
        esp.loader.RewriteFlash();
      }
      state := if ok then PostProgram else Error;
    }

    method OnPostProgram(i: RunInput, w: World, ghost benign: bool)
      requires (benign ==> Benign(i, w)) && Ready(i, benign, PostProgram)
      modifies `state, `postRan, port, esp, esp.loader, swd`driven
      modifies swd.target`calls, swd.target`flight, swd.target`flash
      ensures state == Error || (state == Done && Released() && Ready(i, benign, Done))
      ensures Valid() && (benign ==> state == Done)
      ensures state == Done ==> port.history == old(port.history) + postRan
      ensures state == Done ==> RanThrough(i.job.value.job.postProgram, postRan)
    {
      var ok;
      ok, postRan := Procedure(i.job.value.job.postProgram, w.faithful);
      if !ok {
        state := Error;
        return;
      }
      Release();
      state := Done;
    }

    /** A stage before DETECT. */
    method RunEarlyStages(i: RunInput, w: World, ghost benign: bool) returns (ghost ran: seq<Ran>)
      requires (benign ==> Benign(i, w)) && Rank(state) > Rank(Detect) && Ready(i, benign, state)
      modifies `state, `family, `preRan, port, esp.loader`flash, swd`driven
      modifies swd.target`calls, swd.target`flight, swd.target`flash
      ensures Valid() && (benign ==> state != Error)
      ensures state == Error || (state == Succ(old(state)) && Ready(i, benign, state))
      ensures state != Error ==> RanFor(i, old(state), ran) && Books() == old(Books()).After(i, old(state), ran)
    {
      match state {
        case LoadAsset => OnLoadAsset(i, w, benign);
        case PreProgram => OnPreProgram(i, w, benign);
      }
      ran := preRan;
    }

    /** DETECT or ERASE. */
    method RunMiddleStages(i: RunInput, w: World, ghost benign: bool)
      requires (benign ==> Benign(i, w)) && i.HasAlgorithm() && Rank(Erase) <= Rank(state) <= Rank(Detect)
      requires Ready(i, benign, state) && (state == Detect ==> attempts == 0)
      modifies `state, `attempts, esp, esp.loader, swd
      modifies swd.target`ram, swd.target`seen, swd.target`flash, swd.target`flight, swd.target`calls
      ensures Valid() && (benign ==> state != Error)
      ensures state == Error || (state == Succ(old(state)) && Ready(i, benign, state))
      ensures attempts == old(attempts) || (old(state) == Detect && attempts <= 11)
    {
      match state
      case Detect => OnDetect(i, w, benign);
      case Erase => OnErase(i, w, benign);
    }

    /** A stage from PROGRAM on. */
    method RunLastStages(i: RunInput, w: World, ghost benign: bool) returns (ghost ran: seq<Ran>)
      requires (benign ==> Benign(i, w)) && i.HasAlgorithm() && Working(state) && Rank(state) < Rank(Erase)
      requires Ready(i, benign, state)
      modifies `state, `written, `atVerify, `postRan, esp, esp.loader, esp.block, swd, swd.target, port
      ensures Valid() && (benign ==> state != Error)
      ensures state == Error || (state == Succ(old(state)) && Ready(i, benign, state))
      ensures state != Error ==> RanFor(i, old(state), ran) && Books() == old(Books()).After(i, old(state), ran)
    {
      match state {
        case Program => OnProgram(i, w, benign);
        case Verify => OnVerify(i, w, benign);
        case SelfTest => OnSelfTest(i, w, benign);
        case PostProgram => OnPostProgram(i, w, benign);
      }
      ran := postRan;
    }

    /** One stage. */
    method RunState(i: RunInput, w: World, ghost benign: bool) returns (ghost ran: seq<Ran>)
      requires (benign ==> Benign(i, w)) && i.HasAlgorithm() && Working(state) && Ready(i, benign, state)
      requires Rank(state) >= Rank(Detect) ==> attempts == 0
      modifies `state, `family, `written, `attempts, `atVerify, `preRan, `postRan
      modifies esp, esp.loader, esp.block, swd, swd.target, port
      ensures Valid() && (benign ==> state != Error)
      ensures state == Error || (state == Succ(old(state)) && Ready(i, benign, state))
      ensures state != Error ==> RanFor(i, old(state), ran) && Books() == old(Books()).After(i, old(state), ran)
      ensures attempts == old(attempts) || (old(state) == Detect && attempts <= 11)
    {
      if Rank(state) > Rank(Detect) {
        ran := RunEarlyStages(i, w, benign);
      } else if Rank(state) >= Rank(Erase) {
        RunMiddleStages(i, w, benign);
        ran := [];
      } else {
        ran := RunLastStages(i, w, benign);
      }
    }

    /** Between two calls of handle_states, after the passed stages succeeded in that order. */
    ghost predicate Going(i: RunInput, benign: bool, passed: seq<PgState>)
      reads this, esp, esp.loader, swd, swd.target
    {
      var ready, stopped := Ready(i, benign, state), Stopped(benign, passed);
      && attempts <= 11 && (Rank(state) >= Rank(Detect) ==> attempts == 0)
      && (if Working(state) || state == Done then failed == Done && passed == StagesBefore(state) && ready else stopped)
    }

    /** A run that has not failed is accounted for since it started with this history and these tests. */
    ghost predicate Live(i: RunInput, st: PgState, history: seq<Ran>, tests: seq<Call>)
      reads `started, `tested, `preRan, `postRan, port, swd.target
    {
      Working(st) || st == Done ==> started == history && tested == tests && Accounted(i, st)
    }

    /** A stage failed or was cancelled, after all the stages before it succeeded. */
    ghost predicate Stopped(benign: bool, passed: seq<PgState>)
      reads this, esp, esp.loader, swd, swd.target
    {
      Valid() && Working(failed) && passed == StagesBefore(failed) && !benign
    }

    /** After the call that ended the run. */
    ghost predicate Ended(i: RunInput, benign: bool, passed: seq<PgState>, ret: Err)
      reads this, esp, esp.loader, swd, swd.target
    {
      && Released() && attempts <= 11
      && (if ret == Ok then failed == Done && passed == StagesBefore(Done) && Ready(i, benign, Done)
          else ret == Fail && Stopped(benign, passed))
    }

    /** A working stage runs; the first one that fails is remembered. */
    method Advance(i: RunInput, w: World, ghost benign: bool, ghost before: seq<PgState>)
      returns (ghost passed: seq<PgState>, ghost ran: seq<Ran>)
      requires (benign ==> Benign(i, w)) && i.HasAlgorithm() && Going(i, benign, before) && Working(state)
      modifies this, esp, esp.loader, esp.block, swd, swd.target, port
      ensures Going(i, benign, passed) && (state == Error || state == Succ(old(state)))
      ensures state != Error ==> RanFor(i, old(state), ran) && Books() == old(Books()).After(i, old(state), ran)
    {
      var current := state;
      StagesInOrder(state);
      ran := RunState(i, w, benign);
      passed := before + [current];
      if state == Error {
        failed, passed := current, before;
      }
    }

    /** The cancel check, then one stage or the end of the run. */
    method HandleStates(i: RunInput, w: World, ghost benign: bool, ghost before: seq<PgState>)
      returns (ret: Err, ghost passed: seq<PgState>, ghost ran: seq<Ran>)
      requires (benign ==> Benign(i, w)) && i.HasAlgorithm() && Going(i, benign, before)
      modifies this, esp, esp.loader, esp.block, swd, swd.target, port
      ensures ret == NotFinished ==> Going(i, benign, passed) && Rank(state) < old(Rank(state))
      ensures ret != NotFinished ==> Ended(i, benign, passed, ret)
      ensures ret == NotFinished && state != Error ==> Working(old(state)) && state == Succ(old(state))
      ensures ret == NotFinished && state != Error ==>
                RanFor(i, old(state), ran) && Books() == old(Books()).After(i, old(state), ran)
      ensures ret == Ok ==> old(state) == Done && Books() == old(Books())
    {
      passed, ran := before, [];
      var cancelled: bool := *;
      if Working(state) && (w.faithful || !cancelled) {
        ret := NotFinished;
        passed, ran := Advance(i, w, benign, before);
      } else {
        ret := EndRun(i, w, benign, before);
      }
    }

    /** A run that is cancelled here, or has reached DONE or ERROR: on_cancelled, on_done, on_error. */
    method EndRun(i: RunInput, w: World, ghost benign: bool, ghost before: seq<PgState>) returns (ret: Err)
      requires (benign ==> Benign(i, w)) && Going(i, benign, before) && (w.faithful ==> !Working(state))
      modifies `state, `failed, esp, esp.loader`open, swd`driven
      ensures Ended(i, benign, before, ret) && (ret == Ok ==> old(state) == Done)
    {
      if Working(state) {
        failed, state := state, Cancelled;
      }
      Release();
      ret := if state == Done then Ok else Fail;
    }

    /** handle_states until the run has ended. */
    method RunLoop(i: RunInput, w: World, ghost benign: bool) returns (ret: Err, ghost passed: seq<PgState>)
      requires (benign ==> Benign(i, w)) && i.HasAlgorithm() && Going(i, benign, []) && state == LoadAsset
      requires Live(i, LoadAsset, started, tested)
      modifies this, esp, esp.loader, esp.block, swd, swd.target, port
      ensures ret != NotFinished && Ended(i, benign, passed, ret)
      ensures ret == Ok ==> Live(i, Done, old(started), old(tested))
    {
      ret, passed := NotFinished, [];
      while ret == NotFinished
        invariant ret == NotFinished ==> Live(i, state, old(started), old(tested))
        invariant ret == Ok ==> Live(i, Done, old(started), old(tested))
        invariant if ret == NotFinished then Going(i, benign, passed) else Ended(i, benign, passed, ret)
        decreases ret == NotFinished, Rank(state)
      {
        ghost var st, books, ran := state, Books(), [];
        ret, passed, ran := HandleStates(i, w, benign, passed);
        if ret == NotFinished && state != Error {
          StillBalances(i, st, books, ran);
        }
      }
    }

    /**
     * A whole run. It ends, after at most eleven detect attempts, with the transport released.
     * OK means that every stage succeeded, in order, and that when VERIFY ended the target's
     * flash held what the job pins, that both procedures ran through and that every test answered
     * zero; otherwise the failed stage is the first working one that did
     * not succeed, which the result can name. In a benign world no run fails.
     */
    method Run(i: RunInput, w: World) returns (ret: Err, ghost passed: seq<PgState>)
      requires i.Consistent() && Valid()
      modifies this, esp, esp.loader, esp.block, swd, swd.target, port
      ensures Valid() && Released() && attempts <= 11 && Bracketed(swd.target.calls)
      ensures ret == Ok || ret == Fail
      ensures ret == Ok <==> failed == Done
      ensures ret == Ok ==> passed == ORDER && i.Flashed(atVerify)
      ensures ret == Ok ==> i.job.Some? && PinsMatch(i.env, i.files, i.job.value.job)
      ensures ret == Ok ==> Live(i, Done, old(port.history), old(swd.target.tests))
      ensures ret != Ok ==> Working(failed) && ToStage(failed) != StageNone && passed == StagesBefore(failed)
      ensures Benign(i, w) ==> ret == Ok
    {
      ghost var benign := Benign(i, w);
      Start();
      ret, passed := RunLoop(i, w, benign);
      StagesInOrder(PostProgram);
    }
  }
}
