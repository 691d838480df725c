/**
 * The programming job, its validation and its publication into the fixed-size target
 * configuration (main/prog/config/job_decoder.cpp, main/prog/config/target_config.hpp).
 * Protocol Buffers decoding itself is foreign code: a Job is what it yields.
 */
module Jobs {
  import opened Base

  datatype Image = Image(path: string, offset: uint32, sha: Digest)
  datatype Esp32 = Esp32(
    chip: string, baud: uint32, images: seq<Image>, flashSizeKb: Option<uint32>,
    resetAssertHigh: bool, bootAssertHigh: bool)

  datatype Algorithm = Algorithm(
    name: string, loadAddress: uint32,
    pcInit: Option<uint32>, pcUninit: Option<uint32>, pcProgramPage: Option<uint32>,
    pcEraseSector: Option<uint32>, pcEraseAll: Option<uint32>, pcVerify: Option<uint32>,
    dataSection: Option<uint32>, flashStart: Option<uint32>, flashEnd: Option<uint32>,
    pageSize: uint32)
  datatype CortexM = CortexM(algorithm: Option<Algorithm>, firmwareSha: Digest)

  datatype RegionKind = Ram | Nvm | Generic
  datatype MemoryRegion = MemoryRegion(kind: RegionKind, start: uint32, end: uint32)
  datatype TestItem = TestItem(kind: int, addr: uint32, name: string)

  datatype Target = Target(
    variantName: string, cortexM: Option<CortexM>, esp32: Option<Esp32>,
    selfTests: seq<TestItem>, memoryMap: seq<MemoryRegion>)

  /** NoOp is an operation this decoder does not know: it leaves the tag zero. */
  datatype Op =
    | Read32(addr: uint32) | Write32(addr: uint32, data: bv32)
    | ReadModWrite32(addr: uint32, mask: bv32, data: bv32)
    | Poll32(addr: uint32, mask: bv32, expected: bv32, timeoutMs: uint32)
    | Delay(ms: uint32) | SwdReinit | ResetTarget | HaltTarget | WaitHalt | NoOp
  datatype Step = Step(op: Op, ignoreError: bool)

  datatype Job = Job(
    schemaVersion: int, name: string, target: Option<Target>,
    preProgram: Option<seq<Step>>, postProgram: Option<seq<Step>>)

  /** A decoded file: the job and the flash algorithm blob met on the way, if any. */
  datatype Decoded = Decoded(job: Job, blob: Option<Bytes>)

  const SCHEMA_VERSION_CURRENT := 1
  const MAX_RAM_REGIONS := 4
  const MAX_IMAGES := 8
  const MAX_TESTS := 16
  const DEFAULT_BAUD: uint32 := 115200
  const FIRMWARE_PATH := "/data/firmware.bin"

  /** Array bounds the decoder enforces from job.options. */
  predicate WithinLimits(job: Job) {
    job.target.Some? ==>
      && |job.target.value.selfTests| <= MAX_TESTS
      && (job.target.value.esp32.Some? ==> |job.target.value.esp32.value.images| <= MAX_IMAGES)
  }

  /** A size_t counts the algorithm's bytes. */
  predicate BlobFits(blob: Option<Bytes>) { blob.Some? ==> |blob.value| < U32 }

  // ---- validation --------------------------------------------------------

  function RamRegions(m: seq<MemoryRegion>): seq<MemoryRegion> {
    if m == [] then []
    else RamRegions(m[..|m| - 1]) + (if m[|m| - 1].kind.Ram? then [m[|m| - 1]] else [])
  }

  /** The RAM entries are found at these positions, upward, and nowhere else. */
  lemma {:induction false} RamRegionsAre(m: seq<MemoryRegion>) returns (at: seq<nat>)
    ensures |at| == |RamRegions(m)| && (forall k :: 0 <= k < |at| ==> at[k] < |m| && RamRegions(m)[k] == m[at[k]])
    ensures forall k, l :: 0 <= k < l < |at| ==> at[k] < at[l]
    ensures forall i :: 0 <= i < |m| ==> (m[i].kind.Ram? <==> i in at)
  {
    at := [];
    if m != [] {
      var init, last := m[..|m| - 1], |m| - 1;
      at := RamRegionsAre(init);
      if m[last].kind.Ram? {
        at := at + [last];
      }
      assert forall i :: 0 <= i < last ==> m[i] == init[i];
    }
  }

  predicate RegionsAccepted(m: seq<MemoryRegion>) {
    (forall i :: 0 <= i < |m| ==> m[i].start < m[i].end) && |RamRegions(m)| <= MAX_RAM_REGIONS
  }

  predicate TestsAccepted(ts: seq<TestItem>) {
    forall i :: 0 <= i < |ts| ==> 0 <= ts[i].kind <= 2
  }

  predicate ProcedureAccepted(p: Option<seq<Step>>) {
    p.Some? ==> forall i :: 0 <= i < |p.value| ==> !p.value[i].op.NoOp?
  }

  predicate FamilyAccepted(t: Target, blob: Option<Bytes>) {
    if t.cortexM.Some? then
      && t.cortexM.value.algorithm.Some? && blob.Some?
      && t.cortexM.value.algorithm.value.pageSize != 0
      && RegionsAccepted(t.memoryMap)
    else
      t.esp32.Some? && t.esp32.value.chip != "" && t.esp32.value.baud != 0 && t.esp32.value.images != []
  }

  /** What a job must satisfy before it can become active. */
  predicate Accepted(job: Job, blob: Option<Bytes>) {
    && job.schemaVersion == SCHEMA_VERSION_CURRENT
    && job.target.Some?
    && job.target.value.cortexM.Some? != job.target.value.esp32.Some?
    && TestsAccepted(job.target.value.selfTests)
    && ProcedureAccepted(job.preProgram)
    && ProcedureAccepted(job.postProgram)
    && FamilyAccepted(job.target.value, blob)
  }

  /** The conditions, one by one. */
  lemma AcceptedIff(job: Job, blob: Option<Bytes>)
    ensures Accepted(job, blob) <==>
            && job.schemaVersion == 1 && job.target.Some?
            && (job.target.value.cortexM.Some? <==> job.target.value.esp32.None?)
            && (forall k :: 0 <= k < |job.target.value.selfTests| ==> 0 <= job.target.value.selfTests[k].kind <= 2)
            && (job.preProgram.Some? ==> forall k :: 0 <= k < |job.preProgram.value| ==>
                  job.preProgram.value[k].op != NoOp)
            && (job.postProgram.Some? ==>
                  forall k :: 0 <= k < |job.postProgram.value| ==> job.postProgram.value[k].op != NoOp)
            && (job.target.value.cortexM.Some? ==>
                  && job.target.value.cortexM.value.algorithm.Some? && blob.Some?
                  && job.target.value.cortexM.value.algorithm.value.pageSize > 0
                  && |RamRegions(job.target.value.memoryMap)| <= 4
                  && forall k :: 0 <= k < |job.target.value.memoryMap| ==>
                       job.target.value.memoryMap[k].start < job.target.value.memoryMap[k].end)
            && (job.target.value.esp32.Some? ==>
                  job.target.value.esp32.value.chip != "" && job.target.value.esp32.value.baud > 0
                  && job.target.value.esp32.value.images != [])
  {
  }

  method ValidateRegions(m: seq<MemoryRegion>) returns (r: Err)
    ensures r == Ok <==> RegionsAccepted(m)
    ensures r == Ok || r == InvalidSize
  {
    var ramCount := 0;
    for i := 0 to |m|
      invariant ramCount == |RamRegions(m[..i])|
      invariant forall j :: 0 <= j < i ==> m[j].start < m[j].end
    {
      if m[i].end <= m[i].start {
        return InvalidSize;
      }
      assert m[..i + 1][..i] == m[..i];
      if m[i].kind.Ram? {
        ramCount := ramCount + 1;
      }
    }
    assert m[..|m|] == m;
    r := if ramCount > MAX_RAM_REGIONS then InvalidSize else Ok;
  }

  method ValidateSelfTests(ts: seq<TestItem>) returns (r: Err)
    ensures r == Ok <==> TestsAccepted(ts)
    ensures r == Ok || r == InvalidArg
  {
    for i := 0 to |ts|
      invariant forall j :: 0 <= j < i ==> 0 <= ts[j].kind <= 2
    {
      if ts[i].kind < 0 || ts[i].kind > 2 {
        return InvalidArg;
      }
    }
    r := Ok;
  }

  method ValidateProcedure(p: Option<seq<Step>>) returns (r: Err)
    ensures r == Ok <==> ProcedureAccepted(p)
    ensures r == Ok || r == InvalidArg
  {
    if p.None? {
      return Ok;
    }
    for i := 0 to |p.value|
      invariant forall j :: 0 <= j < i ==> !p.value[j].op.NoOp?
    {
      if p.value[i].op.NoOp? {
        return InvalidArg;
      }
    }
    r := Ok;
  }

  method ValidateJob(job: Job, blob: Option<Bytes>) returns (r: Err)
    ensures r == Ok <==> Accepted(job, blob)
    ensures job.schemaVersion != SCHEMA_VERSION_CURRENT <==> r == NotSupported
  {
    if job.schemaVersion != SCHEMA_VERSION_CURRENT {
      return NotSupported;
    }
    if job.target.None? || job.target.value.cortexM.Some? == job.target.value.esp32.Some? {
      return InvalidState;
    }
    var t := job.target.value;
    r := ValidateSelfTests(t.selfTests);
    if r == Ok { r := ValidateProcedure(job.preProgram); }
    if r == Ok { r := ValidateProcedure(job.postProgram); }
    if r != Ok {
      return;
    }
    if t.cortexM.Some? {
      if t.cortexM.value.algorithm.None? || blob.None? || t.cortexM.value.algorithm.value.pageSize == 0 {
        return InvalidState;
      }
      r := ValidateRegions(t.memoryMap);
    } else {
      var e := t.esp32.value;
      r := if e.chip == "" || e.baud == 0 || e.images == [] then InvalidState else Ok;
    }
  }

  // ---- images pinned by a job --------------------------------------------

  datatype Pin = Pin(path: string, offset: uint32, sha: Digest)

  /** The files a run reads, where they go, and the hash each must have (verify_job_images). */
  function Pins(job: Job): seq<Pin> {
    if job.target.None? then []
    else if job.target.value.cortexM.Some? then
      var c := job.target.value.cortexM.value;
      var start := if c.algorithm.Some? then c.algorithm.value.flashStart else None;
      [Pin(FIRMWARE_PATH, if start.Some? then start.value else 0, c.firmwareSha)]
    else if job.target.value.esp32.Some? then
      var images := job.target.value.esp32.value.images;
      seq(|images|, i requires 0 <= i < |images| => Pin(images[i].path, images[i].offset, images[i].sha))
    else []
  }

  /**
   * Every image of an ESP32 job is pinned, in order, at its own offset and with its own hash; a
   * Cortex-M job pins the firmware at the start of its flash.
   */
  lemma PinsAre(job: Job)
    requires job.target.Some? && (job.target.value.cortexM.Some? != job.target.value.esp32.Some?)
    ensures job.target.value.esp32.Some? ==>
              var images := job.target.value.esp32.value.images;
              && |Pins(job)| == |images|
              && forall k :: 0 <= k < |images| ==>
                   Pins(job)[k].path == images[k].path && Pins(job)[k].offset == images[k].offset
                   && Pins(job)[k].sha == images[k].sha
    ensures job.target.value.cortexM.Some? ==>
              var c := job.target.value.cortexM.value;
              && |Pins(job)| == 1 && Pins(job)[0].path == FIRMWARE_PATH && Pins(job)[0].sha == c.firmwareSha
              && (c.algorithm.Some? && c.algorithm.value.flashStart.Some? ==>
                    Pins(job)[0].offset == c.algorithm.value.flashStart.value)
  {
  }

  predicate IsCortexM(job: Job) { job.target.Some? && job.target.value.cortexM.Some? }

  // ---- publication into target_config ------------------------------------

  datatype Family = SwdCortexM | Esp32Serial
  datatype CfgImage = CfgImage(path: string, offset: uint32)
  datatype RamRegion = RamRegion(start: uint32, end: uint32) {
    /** True when [addr, addr + len) lies inside the region; no intermediate sum can overflow. */
    predicate ContainsRange(addr: uint32, len: uint32) {
      end >= start && addr >= start && addr <= end && len <= end - addr
    }
  }

  /** First region that holds the whole blob: selection is by containment, not by size. */
  function AlgoRegion(regions: seq<RamRegion>, load: uint32, len: uint32): (r: Option<RamRegion>)
    ensures r.Some? ==> r.value in regions && r.value.ContainsRange(load, len)
    ensures r.Some? ==>
              exists i :: 0 <= i < |regions| && regions[i] == r.value
                          && forall j :: 0 <= j < i ==> !regions[j].ContainsRange(load, len)
    ensures r.None? ==> forall i :: 0 <= i < |regions| ==> !regions[i].ContainsRange(load, len)
  {
    if regions == [] then None
    else if regions[0].ContainsRange(load, len) then Some(regions[0])
    else
      var r := AlgoRegion(regions[1..], load, len);
      assert forall j :: 1 <= j < |regions| ==> regions[j] == regions[1..][j - 1];
      r
  }

  datatype AlgoConfig = NoAlgo | AlgoConfig(src: Algorithm, bin: Bytes)

  /** Everything a reader of target_config can observe, generation apart. */
  datatype ConfigView = ConfigView(
    family: Family, variantName: string, hasAlgo: bool, algo: AlgoConfig, ramRegions: seq<RamRegion>,
    chip: string, images: seq<CfgImage>, flashSizeKb: Option<uint32>, baud: uint32,
    resetAssertHigh: bool, bootAssertHigh: bool, tests: seq<TestItem>)

  function RamView(m: seq<MemoryRegion>): (r: seq<RamRegion>)
    ensures |r| == |RamRegions(m)|
    ensures forall i :: 0 <= i < |r| ==> r[i].start == RamRegions(m)[i].start && r[i].end == RamRegions(m)[i].end
  {
    var rams := RamRegions(m);
    seq(|rams|, i requires 0 <= i < |rams| => RamRegion(rams[i].start, rams[i].end))
  }

  function ImageView(images: seq<Image>): (r: seq<CfgImage>)
    ensures |r| == |images|
    ensures forall i :: 0 <= i < |r| ==> r[i].path == images[i].path && r[i].offset == images[i].offset
  {
    seq(|images|, i requires 0 <= i < |images| => CfgImage(images[i].path, images[i].offset))
  }

  /** What an accepted target within the decoder's limits guarantees to fill_target_config. */
  predicate Fillable(t: Target, blob: Option<Bytes>) {
    && |t.selfTests| <= MAX_TESTS
    && (if t.cortexM.Some? then t.cortexM.value.algorithm.Some? && blob.Some? && RegionsAccepted(t.memoryMap)
        else t.esp32.Some? && |t.esp32.value.images| <= MAX_IMAGES)
  }

  function ConfigOfTarget(t: Target, blob: Option<Bytes>): ConfigView
    requires t.cortexM.Some? ==> t.cortexM.value.algorithm.Some? && blob.Some?
    requires t.cortexM.None? ==> t.esp32.Some?
  {
    if t.cortexM.Some? then
      ConfigView(SwdCortexM, t.variantName, true, AlgoConfig(t.cortexM.value.algorithm.value, blob.value),
                 RamView(t.memoryMap), "", [], None, DEFAULT_BAUD, false, false, t.selfTests)
    else
      var e := t.esp32.value;
      ConfigView(Esp32Serial, t.variantName, false, NoAlgo, [], e.chip, ImageView(e.images),
                 e.flashSizeKb, e.baud, e.resetAssertHigh, e.bootAssertHigh, t.selfTests)
  }

  /** The configuration of a job, as a function of the job alone. */
  function ConfigOf(job: Job, blob: Option<Bytes>): ConfigView
    requires Accepted(job, blob)
  {
    ConfigOfTarget(job.target.value, blob)
  }

  /** Everything a backend reads is the job's own. */
  lemma ConfigTellsJob(job: Job, blob: Option<Bytes>)
    requires Accepted(job, blob)
    ensures var cfg, t := ConfigOf(job, blob), job.target.value;
            && cfg.tests == t.selfTests && cfg.variantName == t.variantName
            && (cfg.family.SwdCortexM? <==> IsCortexM(job)) && (cfg.hasAlgo <==> IsCortexM(job))
    ensures var cfg, t := ConfigOf(job, blob), job.target.value;
            IsCortexM(job) ==>
              && cfg.algo == AlgoConfig(t.cortexM.value.algorithm.value, blob.value)
              && cfg.ramRegions == RamView(t.memoryMap) && cfg.images == []
    ensures var cfg, t := ConfigOf(job, blob), job.target.value;
            !IsCortexM(job) ==>
              && cfg.chip == t.esp32.value.chip && cfg.baud == t.esp32.value.baud
              && cfg.flashSizeKb == t.esp32.value.flashSizeKb && cfg.images == ImageView(t.esp32.value.images)
              && cfg.resetAssertHigh == t.esp32.value.resetAssertHigh
              && cfg.bootAssertHigh == t.esp32.value.bootAssertHigh && cfg.ramRegions == []
  {
  }

  lemma {:induction false} RamRegionsPrefix(m: seq<MemoryRegion>, i: nat)
    requires i <= |m|
    ensures |RamRegions(m[..i])| <= |RamRegions(m)|
  {
    if i == |m| {
      assert m[..i] == m;
    } else {
      assert m[..|m| - 1][..i] == m[..i];
      RamRegionsPrefix(m[..|m| - 1], i);
    }
  }

  /** target_config: fixed-size arrays with counts, rewritten in place for every new job. */
  class TargetConfig {
    var family: Family
    var variantName: string
    var hasAlgo: bool
    var algo: AlgoConfig
    const ramRegions: array<RamRegion>
    var ramRegionCount: nat
    var chip: string
    const images: array<CfgImage>
    var imageCount: nat
    var flashSizeKb: Option<uint32>
    var baud: uint32
    var resetAssertHigh: bool
    var bootAssertHigh: bool
    const tests: array<TestItem>
    var testCount: nat
    var generation: uint32

    ghost predicate Valid()
      reads this
    {
      && ramRegions.Length == MAX_RAM_REGIONS && images.Length == MAX_IMAGES && tests.Length == MAX_TESTS
      && ramRegions as object != images && images as object != tests && tests as object != ramRegions
      && ramRegionCount <= MAX_RAM_REGIONS && imageCount <= MAX_IMAGES && testCount <= MAX_TESTS
    }

    function View(): ConfigView
      requires Valid()
      reads this, ramRegions, images, tests
    {
      ConfigView(family, variantName, hasAlgo, algo, ramRegions[..ramRegionCount], chip, images[..imageCount],
                 flashSizeKb, baud, resetAssertHigh, bootAssertHigh, tests[..testCount])
    }

    constructor ()
      ensures Valid() && fresh(ramRegions) && fresh(images) && fresh(tests)
    {
      family, variantName, hasAlgo, algo := SwdCortexM, "", false, NoAlgo;
      ramRegions := new RamRegion[MAX_RAM_REGIONS](_ => RamRegion(0, 0));
      ramRegionCount, chip, imageCount, flashSizeKb, baud := 0, "", 0, None, DEFAULT_BAUD;
      images := new CfgImage[MAX_IMAGES](_ => CfgImage("", 0));
      resetAssertHigh, bootAssertHigh, testCount, generation := false, false, 0, 0;
      tests := new TestItem[MAX_TESTS](_ => TestItem(0, 0, ""));
    }

    method FillSelfTests(ts: seq<TestItem>)
      requires Valid() && |ts| <= MAX_TESTS
      modifies `testCount, tests
      ensures Valid() && tests[..testCount] == ts
    {
      testCount := |ts|;
      for i := 0 to |ts|
        modifies tests
        invariant tests[..i] == ts[..i]
      {
        tests[i] := ts[i];
      }
    }

    method FillRamRegions(m: seq<MemoryRegion>)
      requires Valid() && RegionsAccepted(m)
      modifies `ramRegionCount, ramRegions
      ensures Valid() && ramRegions[..ramRegionCount] == RamView(m)
    {
      ramRegionCount := 0;
      for i := 0 to |m|
        invariant Valid() && ramRegions[..ramRegionCount] == RamView(m[..i])
      {
        assert m[..i + 1][..i] == m[..i];
        RamRegionsPrefix(m, i + 1);
        if m[i].kind.Ram? {
          ramRegions[ramRegionCount] := RamRegion(m[i].start, m[i].end);
          ramRegionCount := ramRegionCount + 1;
        }
      }
      assert m[..|m|] == m;
    }

    method FillEsp32(e: Esp32)
      requires Valid() && |e.images| <= MAX_IMAGES
      modifies `chip, `flashSizeKb, `baud, `resetAssertHigh, `bootAssertHigh, `imageCount, images
      ensures Valid() && images[..imageCount] == ImageView(e.images)
      ensures chip == e.chip && flashSizeKb == e.flashSizeKb && baud == e.baud
      ensures resetAssertHigh == e.resetAssertHigh && bootAssertHigh == e.bootAssertHigh
    {
      chip, flashSizeKb, baud := e.chip, e.flashSizeKb, e.baud;
      resetAssertHigh, bootAssertHigh := e.resetAssertHigh, e.bootAssertHigh;
      imageCount := |e.images|;
      for i := 0 to |e.images|
        modifies images
        invariant imageCount == |e.images| && images[..i] == ImageView(e.images)[..i]
      {
        images[i] := CfgImage(e.images[i].path, e.images[i].offset);
      }
    }

    method ClearEsp32()
      requires Valid()
      modifies `chip, `flashSizeKb, `baud, `resetAssertHigh, `bootAssertHigh, `imageCount
      ensures Valid() && imageCount == 0 && chip == "" && flashSizeKb == None && baud == DEFAULT_BAUD
      ensures !resetAssertHigh && !bootAssertHigh
    {
      chip, flashSizeKb, baud := "", None, DEFAULT_BAUD;
      resetAssertHigh, bootAssertHigh, imageCount := false, false, 0;
    }

    method FillSwd(t: Target, bin: Bytes)
      requires Valid() && t.cortexM.Some? && Fillable(t, Some(bin))
      requires variantName == t.variantName && tests[..testCount] == t.selfTests
      modifies this, ramRegions
      ensures Valid() && View() == ConfigOfTarget(t, Some(bin)) && generation == old(generation)
    {
      family, hasAlgo, algo := SwdCortexM, true, AlgoConfig(t.cortexM.value.algorithm.value, bin);
      FillRamRegions(t.memoryMap);
      ClearEsp32();
    }

    method FillSerial(t: Target)
      requires Valid() && t.cortexM.None? && Fillable(t, None)
      requires variantName == t.variantName && tests[..testCount] == t.selfTests
      modifies this, images
      ensures Valid() && View() == ConfigOfTarget(t, None) && generation == old(generation)
    {
      family, hasAlgo, algo, ramRegionCount := Esp32Serial, false, NoAlgo, 0;
      FillEsp32(t.esp32.value);
    }

    /** The whole observable configuration is that of the new job, whatever was there before. */
    method FillTargetConfig(job: Job, blob: Option<Bytes>)
      requires Valid() && Accepted(job, blob) && WithinLimits(job)
      modifies this, ramRegions, images, tests
      ensures Valid() && View() == ConfigOf(job, blob)
      ensures generation == Wrap(old(generation) + 1)
    {
      var t := job.target.value;
      variantName := t.variantName;
      FillSelfTests(t.selfTests);
      if t.cortexM.Some? {
        FillSwd(t, blob.value);
      } else {
        FillSerial(t);
      }
      generation := Wrap(generation + 1);
    }

    /** The region chosen for the flash algorithm. */
    method AlgoRamRegion() returns (r: Option<RamRegion>)
      requires Valid()
      requires hasAlgo ==> algo.AlgoConfig? && |algo.bin| < U32
      ensures r == if hasAlgo then AlgoRegion(View().ramRegions, algo.src.loadAddress, |algo.bin|) else None
    {
      if !hasAlgo {
        return None;
      }
      var i := 0;
      while i < ramRegionCount
        invariant i <= ramRegionCount
        invariant AlgoRegion(ramRegions[..ramRegionCount], algo.src.loadAddress, |algo.bin|)
               == AlgoRegion(ramRegions[i..ramRegionCount], algo.src.loadAddress, |algo.bin|)
      {
        assert ramRegions[i..ramRegionCount][1..] == ramRegions[i + 1..ramRegionCount];
        if ramRegions[i].ContainsRange(algo.src.loadAddress, |algo.bin|) {
          return Some(ramRegions[i]);
        }
        i := i + 1;
      }
      r := None;
    }
  }
}
