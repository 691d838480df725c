/**
 * The SWD flash programmer (main/prog/swd_prog.cpp) and its backend
 * (main/prog/swd_cortexm_backend.cpp) over SwdTarget. Every driver call may fail, unless the
 * target is declared faithful.
 */
module SwdProg {
  import opened Base
  import opened Memory
  import opened Jobs
  import opened SwdLayout
  import opened SwdTarget

  datatype HostState = Unknown | Initialised | AlgLoaded | AlgInited | AlgUninited

  type Word = w: Bytes | |w| == 4 witness [0, 0, 0, 0]

  const STACK_SIZE: uint32 := 0x2000
  const HALT_HEADER: Word := [0x00, 0xBE, 0x00, 0xBE]

  /** A job this backend can be given: an accepted Cortex-M job with an addressable algorithm. */
  predicate Usable(cfg: ConfigView) {
    cfg.hasAlgo && cfg.algo.AlgoConfig? && |cfg.algo.bin| < U32 && cfg.algo.src.pageSize > 0
  }

  function RequestOf(cfg: ConfigView): Request
    requires Usable(cfg)
  {
    Request(cfg.algo.src.loadAddress, |cfg.algo.bin|, cfg.algo.src.pageSize, STACK_SIZE)
  }

  /** What init asks of a job: a region with room, and a data section. */
  predicate CanInit(cfg: ConfigView)
    requires Usable(cfg)
  {
    var region := AlgoRegion(cfg.ramRegions, cfg.algo.src.loadAddress, |cfg.algo.bin|);
    region.Some? && CapacityOk(region.value, RequestOf(cfg)) && cfg.algo.src.dataSection.Some?
  }

  /** The entry points every bracket needs, and a layout that does not wrap around. */
  predicate CanBracket(cfg: ConfigView)
    requires Usable(cfg)
  {
    && cfg.algo.src.pcInit.Some? && cfg.algo.src.pcUninit.Some? && cfg.algo.src.flashStart.Some?
    && NoWrap(RequestOf(cfg))
  }

  /** One of the two ways to erase is there. */
  predicate CanErase(cfg: ConfigView)
    requires Usable(cfg)
  {
    var fa := cfg.algo.src;
    CanBracket(cfg) && fa.flashEnd.Some? && (fa.pcEraseAll.Some? || CanEraseSectors(cfg))
  }

  predicate CanEraseSectors(cfg: ConfigView)
    requires Usable(cfg)
  {
    var fa := cfg.algo.src;
    && CanBracket(cfg) && fa.flashEnd.Some? && fa.pcEraseSector.Some?
    && SectorCount(fa.flashStart.value, fa.flashEnd.value, fa.pageSize).Some?
  }

  class Programmer {
    const target: Chip
    var state: HostState
    var layout: Layout
    var region: RamRegion
    var canary: Word
    var driven: bool           // the SWD pins may be driven

    ghost predicate Valid()
      reads target
    {
      target.Valid()
    }

    /** The canary word is where load_flash_algorithm put it. */
    ghost predicate CanaryOk()
      requires |target.ram| == U32
      reads `layout, `canary, target`ram
    {
      Read(target.ram, layout.stackBottom, 4) == canary
    }

    ghost predicate CodeOk(cfg: ConfigView)
      requires Usable(cfg) && |target.ram| == U32
      reads target`ram
    {
      Read(target.ram, cfg.algo.src.loadAddress, |cfg.algo.bin|) == cfg.algo.bin
    }

    /** The halt word, which calls return to, is right below the code. */
    ghost predicate HaltOk(cfg: ConfigView)
      requires Usable(cfg) && |target.ram| == U32
      reads target`ram
    {
      cfg.algo.src.loadAddress >= 4 ==> Read(target.ram, cfg.algo.src.loadAddress - 4, 4) == HALT_HEADER
    }

    /**
     * The host believes the algorithm is initialised only inside an open bracket of mode m, with
     * the canary in place unless the layout wraps around.
     */
    ghost predicate InStep(cfg: ConfigView, m: Mode)
      requires |target.ram| == U32
      reads this, target
    {
      state == AlgInited ==>
        && OpenMode(target.calls) == Some(m)
        && (Usable(cfg) && NoWrap(RequestOf(cfg)) ==> CanaryOk())
    }

    /** Addresses computed for this job, in a region that passed the capacity check. */
    ghost predicate LaidOut(cfg: ConfigView)
      reads `layout, `region
    {
      Usable(cfg) && layout == Place(RequestOf(cfg)) && CapacityOk(region, RequestOf(cfg)) && region in cfg.ramRegions
    }

    constructor (target: Chip)
      requires target.Valid()
      ensures Valid() && this.target == target && state == Unknown && !driven
    {
      this.target, state, layout, region := target, Unknown, Layout(0, 0, 0, 0, 0, 0), RamRegion(0, 0);
      canary, driven := [0, 0, 0, 0], false;
    }

    /** Halt word below the code, the code, then the canary of the layout computed last. */
    method StoreAlgorithm(cfg: ConfigView, faithful: bool) returns (ok: bool)
      requires Valid() && Usable(cfg)
      modifies target`ram, target`seen
      ensures Valid() && (faithful ==> ok)
      ensures ok ==> CanaryOk() && (LaidOut(cfg) && NoWrap(RequestOf(cfg)) ==> CodeOk(cfg) && HaltOk(cfg))
    {
      var load: int := cfg.algo.src.loadAddress;
      var bin := cfg.algo.bin;
      ghost var stored;
      ghost var before := target.ram;
      ok, stored := target.WriteRam(Wrap(load - 4), HALT_HEADER, faithful);
      if !ok {
        return;
      }
      ReadPoke(before, Wrap(load - 4), HALT_HEADER);
      before := target.ram;
      ok, stored := target.WriteRam(load, bin, faithful);
      if !ok {
        return;
      }
      ReadPoke(before, load, bin);
      if load >= 4 && load + |bin| <= U32 {
        PokeApart(before, load, bin, load - 4, 4);
      }
      before := target.ram;
      ok, stored := target.WriteRam(layout.stackBottom, canary, faithful);
      if ok {
        ReadPoke(before, layout.stackBottom, canary);
        if LaidOut(cfg) && NoWrap(RequestOf(cfg)) {
          PlaceExact(RequestOf(cfg));
          PokeApart(before, layout.stackBottom, canary, load, |bin|);
          if load >= 4 {
            PokeApart(before, layout.stackBottom, canary, load - 4, 4);
          }
        }
      }
    }

    /** Reset the target and halt it; the second flag says whether the target was reached at all. */
    method BringUp(faithful: bool) returns (ok: bool, reached: bool)
      requires Valid()
      modifies `driven, target`calls, target`flight
      ensures Valid() && (faithful ==> ok) && (ok ==> reached)
      ensures reached ==> OpenMode(target.calls) == None && target.flight.None?
      ensures !reached ==> target.calls == old(target.calls) && target.flight == old(target.flight)
    {
      driven := true;
      ok := *;
      reached := ok || faithful;
      if reached {
        target.Note(Reset);
        target.flight := None;
      }
      ok := *;
      ok := reached && (ok || faithful);
    }

    method LoadFlashAlgorithm(cfg: ConfigView, faithful: bool) returns (r: Err)
      requires Valid() && Usable(cfg)
      modifies `state, `driven, target`calls, target`flight, target`ram, target`seen
      ensures Valid() && (faithful ==> r == Ok)
      ensures r == Ok ==> state == AlgLoaded && OpenMode(target.calls) == None && target.flight.None?
      ensures r == Ok ==> CanaryOk() && (LaidOut(cfg) && NoWrap(RequestOf(cfg)) ==> CodeOk(cfg) && HaltOk(cfg))
      ensures r != Ok ==> state == Unknown || (state == old(state) && target.calls == old(target.calls))
      ensures old(target.flight).None? ==> target.flight.None?
    {
      var ok, reached := BringUp(faithful);
      if !reached {
        return Fail;           // swd_init failed: nothing reached the target
      }
      if ok {
        target.Note(Load);
        ok := StoreAlgorithm(cfg, faithful);
      }
      state := if ok then AlgLoaded else Unknown;      // debug init, halt, or one of the RAM writes failed
      r := if ok then Ok else Fail;
    }

    /**
     * The first load still uses the layout and canary of the previous call; both are replaced
     * only after it, and every algorithm call is preceded by another load.
     */
    method Init(cfg: ConfigView, faithful: bool) returns (r: Err)
      requires Valid() && Usable(cfg)
      modifies this, target`calls, target`flight, target`ram, target`seen
      ensures Valid() && (faithful && CanInit(cfg) ==> r == Ok)
      ensures r == Ok ==> state == Initialised && LaidOut(cfg) && OpenMode(target.calls) == None && target.flight.None?
      ensures old(LaidOut(cfg)) ==> LaidOut(cfg)
      ensures r != Ok ==> state != AlgInited || (state == old(state) && target.calls == old(target.calls))
      ensures old(target.flight).None? ==> target.flight.None?
    {
      var q := RequestOf(cfg);
      var found := AlgoRegion(cfg.ramRegions, q.load, q.len);
      if found.None? {
        return NotFound;
      }
      if !CapacityOk(found.value, q) {
        return NoMem;
      }
      driven := true;
      var ok: bool := *;
      if !ok && !faithful {
        state := Unknown;
        return InvalidState;
      }
      r := LoadFlashAlgorithm(cfg, faithful);
      if r != Ok {
        return Fail;
      }
      if cfg.algo.src.dataSection.None? {
        return NotFound;
      }
      var random: Word := *;
      layout, region, canary, state := Place(q), found.value, random, Initialised;
      r := Ok;
    }

    /** Up to three attempts; a failed Init call re-initialises everything before the next one. */
    method RunAlgoInit(cfg: ConfigView, mode: Mode, faithful: bool)
      returns (r: Err, ghost tries: nat, ghost loaded: bool)
      requires Valid() && LaidOut(cfg) && state != AlgInited && target.flight.None?
      modifies this, target`calls, target`flight, target`ram, target`seen
      ensures Valid() && LaidOut(cfg) && target.flight.None?
      ensures if r == Ok then state == AlgInited && OpenMode(target.calls) == Some(mode) else state != AlgInited
      ensures r == Ok ==> CanaryOk() && (NoWrap(RequestOf(cfg)) ==> CodeOk(cfg))
      ensures faithful && CanBracket(cfg) ==> r == Ok
      ensures tries <= 3 && (r == Fail && loaded ==> tries == 3)
    {
      var retry := 3;
      tries, loaded := 0, true;
      while retry > 0
        invariant tries + retry == 3 && loaded
        invariant Valid() && LaidOut(cfg) && state != AlgInited && target.flight.None?
        invariant faithful && CanBracket(cfg) ==> retry == 3
      {
        r := LoadFlashAlgorithm(cfg, faithful);
        if r != Ok {
          return Fail, tries, false;
        }
        if cfg.algo.src.pcInit.None? || cfg.algo.src.flashStart.None? {
          return NotFound, tries, true;
        }
        var ok: bool := *;
        if !ok && !faithful {
          state := Unknown;
          return InvalidState, tries, true;
        }
        ok := *;
        ok := ok || faithful;
        target.Note(InitCall(mode, ok));
        tries := tries + 1;
        if ok {
          state := AlgInited;
          return Ok, tries, true;
        }
        var ignored := Init(cfg, faithful);
        retry := retry - 1;
      }
      state := Unknown;
      r := Fail;
    }

    /** UnInit, then the canary: an algorithm that overran its stack is caught here. */
    method RunAlgoUninit(cfg: ConfigView, faithful: bool) returns (r: Err)
      requires Valid() && Usable(cfg)
      modifies `state, target`calls, target`ram, target`seen
      ensures Valid()
      ensures r == Ok ==> state == AlgUninited && OpenMode(target.calls) == None && CanaryOk()
      ensures r == Ok ==> target.calls == old(target.calls) + [UninitCall]
      ensures r != Ok ==>
                || state == Unknown
                || (state == old(state) && target.calls == old(target.calls) && target.ram == old(target.ram))
      ensures faithful && cfg.algo.src.pcUninit.Some? && old(CanaryOk()) ==> r == Ok
    {
      var ok: bool := *;
      if !ok && !faithful {
        state := Unknown;
        return InvalidState;
      }
      if cfg.algo.src.pcUninit.None? {
        return NotFound;
      }
      target.Note(UninitCall);
      var overran: bool := *;
      if overran && !faithful {
        var left: Word := *;
        ghost var stored;
        ok, stored := target.WriteRam(layout.stackBottom, left, true);
      }
      ok := *;
      if !(ok || faithful) || Read(target.ram, layout.stackBottom, 4) != canary {
        state := Unknown;
        return Fail;
      }
      state := AlgUninited;
      r := Ok;
    }

    /** Common start of erase_chip, erase_sector and self_test: make sure a bracket is open, then halt. */
    method Prepare(cfg: ConfigView, mode: Mode, faithful: bool) returns (r: Err)
      requires Valid() && LaidOut(cfg) && InStep(cfg, mode) && target.flight.None?
      modifies this, target`calls, target`flight, target`ram, target`seen
      ensures Valid() && LaidOut(cfg) && InStep(cfg, mode) && target.flight.None?
      ensures r == Ok ==> state == AlgInited
      ensures faithful && CanBracket(cfg) ==> r == Ok
    {
      if state != AlgInited {
        ghost var tries, loaded;
        r, tries, loaded := RunAlgoInit(cfg, mode, faithful);
        if r != Ok {
          return;
        }
      }
      var ok: bool := *;
      if !ok && !faithful {
        state := Unknown;
        return InvalidState;
      }
      r := Ok;
    }

    /** The flash the algorithm is responsible for is blank. */
    ghost predicate DeviceBlank(cfg: ConfigView)
      requires Usable(cfg)
      reads target`flash
    {
      cfg.algo.src.flashStart.Some? && cfg.algo.src.flashEnd.Some? ==>
        Blank(target.flash, cfg.algo.src.flashStart.value, cfg.algo.src.flashEnd.value)
    }

    /** EraseAll blanks the device, which spans flash_start to flash_end, unless the target refuses it. */
    method EraseChip(cfg: ConfigView, refused: bool, faithful: bool) returns (r: Err)
      requires Valid() && LaidOut(cfg) && InStep(cfg, EraseMode) && target.flight.None?
      modifies this, target`ram, target`seen, target`flash, target`flight, target`calls
      ensures Valid() && LaidOut(cfg) && InStep(cfg, EraseMode) && target.flight.None?
      ensures r == Ok ==> state == AlgUninited && DeviceBlank(cfg)
      ensures r == Ok ==> |target.calls| >= 2 && target.calls[|target.calls| - 2] == EraseAllCall
      ensures faithful && CanBracket(cfg) && cfg.algo.src.pcEraseAll.Some? && !refused ==> r == Ok
    {
      var fa := cfg.algo.src;
      if fa.pcEraseAll.None? {
        return NotSupported;
      }
      r := Prepare(cfg, EraseMode, faithful);
      if r != Ok {
        return;
      }
      var lo := if fa.flashStart.Some? then fa.flashStart.value else 0;
      var hi := if fa.flashEnd.Some? then fa.flashEnd.value else 0;
      var ok := target.EraseRange(EraseAllCall, lo, hi, faithful);
      ok := ok && !refused;
      r := RunAlgoUninit(cfg, faithful);
      if r == Ok && !ok {
        r := Fail;
      }
    }

    /** Sector addresses step from flash_start; a failing sector leaves the bracket open. */
    method EraseSector(cfg: ConfigView, startAddr: uint32, endAddr: uint32, faithful: bool) returns (r: Err)
      requires Valid() && LaidOut(cfg) && InStep(cfg, EraseMode) && target.flight.None?
      modifies this, target`ram, target`seen, target`flash, target`flight, target`calls
      ensures Valid() && LaidOut(cfg) && InStep(cfg, EraseMode) && target.flight.None?
      ensures r == Ok ==>
                var n := SectorCount(startAddr, endAddr, cfg.algo.src.pageSize);
                && state == AlgUninited && cfg.algo.src.flashStart.Some? && n.Some?
                && EndsWith(target.calls, SectorCalls(cfg, n.value) + [UninitCall])
      ensures r == Ok && cfg.algo.src.flashStart == Some(startAddr) ==> Blank(target.flash, startAddr, endAddr)
      ensures faithful && CanBracket(cfg) && cfg.algo.src.pcEraseSector.Some? ==>
                (SectorCount(startAddr, endAddr, cfg.algo.src.pageSize).Some? ==> r == Ok)
    {
      if cfg.algo.src.pcEraseSector.None? || cfg.algo.src.flashStart.None? {
        return InvalidState;
      }
      var count := SectorCount(startAddr, endAddr, cfg.algo.src.pageSize);
      if count.None? {
        return InvalidArg;
      }
      r := Prepare(cfg, EraseMode, faithful);
      if r != Ok {
        return;
      }
      ghost var before := target.calls;
      r := EraseEach(cfg, count.value, faithful);
      if r != Ok {
        return;
      }
      SectorsFill(startAddr, endAddr, cfg.algo.src.pageSize);
      r := RunAlgoUninit(cfg, faithful);
      assert r == Ok ==> target.calls == before + (SectorCalls(cfg, count.value) + [UninitCall]);
    }

    method EraseOne(cfg: ConfigView, i: nat, faithful: bool) returns (ok: bool)
      requires Valid() && Usable(cfg) && cfg.algo.src.flashStart.Some? && OpenMode(target.calls) == Some(EraseMode)
      requires SectorsBlank(cfg, i)
      modifies target`calls, target`flash
      ensures Valid() && OpenMode(target.calls) == Some(EraseMode) && (faithful ==> ok)
      ensures target.calls == old(target.calls) + [EraseSectorCall(Wrap(SectorAddr(cfg, i)))]
      ensures ok ==> SectorsBlank(cfg, i + 1)
    {
      var lo := Wrap(SectorAddr(cfg, i));
      SectorNext(cfg, i);
      ghost var before := target.flash;
      ok := target.EraseRange(EraseSectorCall(lo), lo, lo + cfg.algo.src.pageSize, faithful);
      if ok && SectorAddr(cfg, i + 1) <= U32 {
        BlankGrows(before, cfg.algo.src.flashStart.value, lo, SectorAddr(cfg, i + 1));
      }
    }

    /** The first n sectors are blank, unless their addresses wrap around. */
    ghost predicate SectorsBlank(cfg: ConfigView, n: nat)
      requires Usable(cfg) && cfg.algo.src.flashStart.Some?
      reads target`flash
    {
      SectorAddr(cfg, n) <= U32 ==> Blank(target.flash, cfg.algo.src.flashStart.value, SectorAddr(cfg, n))
    }

    method EraseEach(cfg: ConfigView, count: nat, faithful: bool) returns (r: Err)
      requires Valid() && Usable(cfg) && cfg.algo.src.flashStart.Some? && OpenMode(target.calls) == Some(EraseMode)
      modifies target`calls, target`flash
      ensures Valid() && OpenMode(target.calls) == Some(EraseMode) && (faithful ==> r == Ok)
      ensures r == Ok ==> target.calls == old(target.calls) + SectorCalls(cfg, count) && SectorsBlank(cfg, count)
    {
      for i := 0 to count
        invariant Valid() && OpenMode(target.calls) == Some(EraseMode)
        invariant target.calls == old(target.calls) + SectorCalls(cfg, i) && SectorsBlank(cfg, i)
      {
        var ok := EraseOne(cfg, i, faithful);
        if !ok {
          return Fail;
        }
      }
      r := Ok;
    }

    /** Runs code on the target, which may do anything to the flash. */
    method SelfTest(cfg: ConfigView, id: uint32, faithful: bool) returns (r: Err, value: uint32)
      requires Valid() && LaidOut(cfg) && InStep(cfg, EraseMode) && target.flight.None?
      modifies this, target
      ensures Valid() && LaidOut(cfg) && InStep(cfg, EraseMode) && target.flight.None?
      ensures cfg.algo.src.pcVerify.None? <==> r == NotSupported
      ensures faithful && CanBracket(cfg) && cfg.algo.src.pcVerify.Some? ==> r == Ok && value == 0
      ensures r == NotSupported ==> target.tests == old(target.tests)
      ensures r == Ok ==> target.tests == old(target.tests) + [SelfTestCall(id, value)]
    {
      value := 0xFFFF_FFFF;
      if cfg.algo.src.pcVerify.None? {
        return NotSupported, value;
      }
      r := Prepare(cfg, EraseMode, faithful);
      if r != Ok {
        return Fail, value;
      }
      var ok: bool := *;
      var answer: int := *;
      r, value := if ok || faithful then Ok else Fail, if faithful then 0 else Wrap(answer);
      target.RunTest(id, value);
    }

    // ---- the two page writers --------------------------------------------

    ghost predicate ReadyToWrite()
      reads target
    {
      Valid() && OpenMode(target.calls) == Some(ProgramMode)
    }

    /** Nothing in flight for an empty page; otherwise that page, out of a buffer untouched so far. */
    ghost predicate PageInFlight(addr: nat, page: Bytes, buffer: nat)
      reads target
    {
      if page == [] then target.flight.None?
      else
        && |target.ram| == U32 && buffer + |page| <= U32 && addr + |page| <= U32
        && target.flight == Some(Flight(addr, |page|, buffer))
        && Read(target.ram, buffer, |page|) == page
        && |target.seen| == |page| && forall i :: 0 <= i < |page| ==> target.seen[i] == {page[i]}
    }

    /**
     * Put the next page into RAM, then wait for the one in flight; a failed RAM write leaves it
     * flying. What becomes of RAM and flash is stated where no address wraps around.
     */
    method FillThenWait(page: Bytes, buffer: uint32, ghost addr: nat, ghost flying: Bytes, ghost from: nat,
                        ghost fits: bool, faithful: bool) returns (ok: bool)
      requires ReadyToWrite()
      requires fits ==> buffer + |page| <= U32 && PageInFlight(addr, flying, from)
      requires fits ==> flying == [] || from + |flying| <= buffer || buffer + |page| <= from
      modifies target`ram, target`seen, target`flash, target`flight
      ensures ReadyToWrite() && (faithful ==> ok) && (ok ==> target.flight.None?)
      ensures buffer + |page| <= U32 ==> SameOutside(old(target.ram), target.ram, buffer, buffer + |page|)
      ensures fits && ok ==> Read(target.ram, buffer, |page|) == page
      ensures fits && ok ==> target.flash == Nor(old(target.flash), addr, flying)
    {
      ghost var before := target.ram;
      ghost var stored;
      ok, stored := target.WriteRam(buffer, page, faithful);
      if buffer + |page| <= U32 {
        PokeFrame(before, buffer, stored, buffer + |page|);
      }
      if !ok {
        return;
      }
      if fits {
        ReadPoke(before, buffer, page);
        if flying != [] {
          PokeApart(before, buffer, page, from, |flying|);
          ReadAt(target.ram, from, |flying|);
        }
      }
      ghost var read;
      ok, read := target.Wait(faithful);
      assert fits && flying != [] ==> read == flying;
      assert flying == [] ==> Nor(old(target.flash), addr, flying) == old(target.flash);
    }

    method LaunchPage(addr: uint32, page: Bytes, buffer: uint32, ghost fits: bool, faithful: bool) returns (ok: bool)
      requires ReadyToWrite() && target.flight.None?
      requires fits ==> addr + |page| <= U32 && buffer + |page| <= U32 && page != []
      requires fits ==> Read(target.ram, buffer, |page|) == page
      modifies target`flight, target`seen, target`calls
      ensures ReadyToWrite() && (fits && ok ==> PageInFlight(addr, page, buffer)) && (faithful ==> ok)
    {
      if fits {
        ReadAt(target.ram, buffer, |page|);
      }
      ok := target.Launch(addr, |page|, buffer, faithful);
    }

    /** One turn with one buffer: fill it, call, wait. */
    method WritePage(file: Bytes, addr: uint32, done: nat, n: nat, buffer: uint32, ghost start: Bytes,
                     ghost fits: bool, faithful: bool) returns (ok: bool)
      requires ReadyToWrite() && target.flight.None? && done < done + n <= |file|
      requires fits ==> addr + |file| <= U32 && buffer + n <= U32 && target.flash == Nor(start, addr, file[..done])
      modifies target`ram, target`seen, target`flash, target`flight, target`calls
      ensures ReadyToWrite() && (faithful ==> ok) && (ok ==> target.flight.None?)
      ensures buffer + n <= U32 ==> SameOutside(old(target.ram), target.ram, buffer, buffer + n)
      ensures fits && ok ==> target.flash == Nor(start, addr, file[..done + n])
    {
      var page := file[done..done + n];
      PageLands(start, addr, file, done, n);
      ok := FillThenWait(page, buffer, 0, [], 0, fits, faithful);
      if ok {
        assert Nor(old(target.flash), 0, []) == old(target.flash);
        ok := LaunchPage(Wrap(addr + done), page, buffer, fits, faithful);
      }
      if ok {
        ok := FillThenWait([], 0, addr + done, page, buffer, fits, faithful);
      }
    }

    /** One buffer: the host waits for each page before it touches the buffer again. */
    method PerformSimple(file: Bytes, page: nat, addr: uint32, buffer: uint32, faithful: bool) returns (r: Err)
      requires ReadyToWrite() && target.flight.None? && page > 0
      modifies `state, target`ram, target`seen, target`flash, target`flight, target`calls
      ensures ReadyToWrite() && (faithful ==> r == Ok)
      ensures if r == Ok then state == old(state) && target.flight.None? else state == Unknown
      ensures buffer + page <= U32 ==> SameOutside(old(target.ram), target.ram, buffer, buffer + page)
      ensures addr + |file| <= U32 && buffer + page <= U32 && r == Ok ==>
                target.flash == Nor(old(target.flash), addr, file)
    {
      ghost var start, fits := target.flash, addr + |file| <= U32 && buffer + page <= U32;
      assert Nor(start, addr, file[..0]) == start;
      var k, done := 0, 0;
      while done < |file|
        invariant ReadyToWrite() && target.flight.None? && state == old(state)
        invariant done <= |file| && done == Min(k * page, |file|)
        invariant fits ==> target.flash == Nor(start, addr, file[..done])
        invariant buffer + page <= U32 ==> SameOutside(old(target.ram), target.ram, buffer, buffer + page)
      {
        var n := Min(page, |file| - done);
        PageStep(k, page, done, |file|);
        var ok := WritePage(file, addr, k * page, n, buffer, start, fits, faithful);
        if !ok {
          state := Unknown;
          return InvalidState;
        }
        k, done := k + 1, done + n;
      }
      assert file[..done] == file;
      r := Ok;
    }

    /** One turn with two buffers: the page in flight lands, and the next one takes off from its own buffer. */
    method TakeTurn(file: Bytes, addr: uint32, done: nat, n: nat, at: uint32, ghost start: Bytes, ghost settled: nat,
                    ghost from: nat, ghost fits: bool, faithful: bool) returns (ok: bool)
      requires ReadyToWrite() && settled <= done < done + n <= |file|
      requires fits ==> addr + |file| <= U32 && at + n <= U32 && (from + (done - settled) <= at || at + n <= from)
      requires fits ==> target.flash == Nor(start, addr, file[..settled])
      requires fits ==> PageInFlight(addr + settled, file[settled..done], from)
      modifies target`ram, target`seen, target`flash, target`flight, target`calls
      ensures ReadyToWrite() && (faithful ==> ok)
      ensures at + n <= U32 ==> SameOutside(old(target.ram), target.ram, at, at + n)
      ensures fits && ok ==> target.flash == Nor(start, addr, file[..done])
      ensures fits && ok ==> PageInFlight(addr + done, file[done..done + n], at)
    {
      PageLands(start, addr, file, settled, done - settled);
      ok := FillThenWait(file[done..done + n], at, addr + settled, file[settled..done], from, fits, faithful);
      if ok {
        ok := LaunchPage(Wrap(addr + done), file[done..done + n], at, fits, faithful);
      }
    }

    method LandLast(file: Bytes, ghost addr: uint32, ghost start: Bytes, ghost settled: nat, ghost from: nat,
                    ghost fits: bool, faithful: bool) returns (ok: bool)
      requires ReadyToWrite() && settled <= |file|
      requires fits ==> addr + |file| <= U32 && target.flash == Nor(start, addr, file[..settled])
      requires fits ==> PageInFlight(addr + settled, file[settled..], from)
      modifies target`ram, target`seen, target`flash, target`flight, target`calls
      ensures ReadyToWrite() && (faithful ==> ok) && (ok ==> target.flight.None?)
      ensures SameOutside(old(target.ram), target.ram, 0, 0)
      ensures fits && ok ==> target.flash == Nor(start, addr, file)
    {
      PageLands(start, addr, file, settled, |file| - settled);
      assert file[..|file|] == file && file[settled..|file|] == file[settled..];
      ok := FillThenWait([], 0, addr + settled, file[settled..], from, fits, faithful);
    }

    /**
     * Two buffers: the next page is copied to RAM while the previous one may still be read by
     * the target. It never lands in the buffer in flight, so the flash ends up exactly as with
     * one buffer; and no RAM outside the two buffers is touched.
     */
    method PerformDouble(file: Bytes, page: nat, addr: uint32, buffer: uint32, faithful: bool) returns (r: Err)
      requires ReadyToWrite() && target.flight.None? && page > 0
      modifies `state, target`ram, target`seen, target`flash, target`flight, target`calls
      ensures ReadyToWrite() && (faithful ==> r == Ok)
      ensures if r == Ok then state == old(state) && target.flight.None? else state == Unknown
      ensures buffer + 2 * page <= U32 ==> SameOutside(old(target.ram), target.ram, buffer, buffer + 2 * page)
      ensures addr + |file| <= U32 && buffer + 2 * page <= U32 && r == Ok ==>
                target.flash == Nor(old(target.flash), addr, file)
    {
      ghost var start, fits := target.flash, addr + |file| <= U32 && buffer + 2 * page <= U32;
      assert Nor(start, addr, file[..0]) == start;
      var k, done, second := 0, 0, false;
      ghost var settled: nat, from: nat := 0, buffer + page;      // pages awaited; buffer of the one in flight
      while done < |file|
        invariant ReadyToWrite() && state == old(state)
        invariant settled <= done <= |file| && done - settled <= page && done == Min(k * page, |file|)
        invariant fits ==> from == if second then buffer else buffer + page
        invariant fits ==> target.flash == Nor(start, addr, file[..settled])
        invariant fits ==> PageInFlight(addr + settled, file[settled..done], from)
        invariant buffer + 2 * page <= U32 ==> SameOutside(old(target.ram), target.ram, buffer, buffer + 2 * page)
      {
        var n := Min(page, |file| - done);
        PageStep(k, page, done, |file|);
        var at := if second then Wrap(buffer + page) else buffer;
        var ok := TakeTurn(file, addr, k * page, n, at, start, settled, from, fits, faithful);
        if !ok {
          state := Unknown;
          return InvalidState;
        }
        settled, from := done, at;
        k, done, second := k + 1, done + n, !second;
      }
      var ok := LandLast(file, addr, start, settled, from, fits, faithful);
      if !ok {
        state := Unknown;
        return InvalidState;
      }
      r := Ok;
    }

    /**
     * program_file's choice between the writers. Unless the layout wraps around: whichever it
     * takes, and whether or not it succeeds, the host leaves the algorithm's code and the canary
     * word alone; and it writes only inside the algorithm's region if it takes the two buffers,
     * or the region has room for one.
     */
    method WritePages(cfg: ConfigView, file: Bytes, addr: uint32, faithful: bool) returns (r: Err)
      requires ReadyToWrite() && LaidOut(cfg) && target.flight.None?
      modifies `state, target`ram, target`seen, target`flash, target`flight, target`calls
      ensures ReadyToWrite() && (faithful ==> r == Ok)
      ensures if r == Ok then state == old(state) && target.flight.None? else state == Unknown
      ensures NoWrap(RequestOf(cfg)) && addr + |file| <= U32 && r == Ok ==>
                target.flash == Nor(old(target.flash), addr, file)
      ensures NoWrap(RequestOf(cfg)) && old(CanaryOk()) ==> CanaryOk()
      ensures NoWrap(RequestOf(cfg)) && old(CodeOk(cfg)) ==> CodeOk(cfg)
      ensures NoWrap(RequestOf(cfg)) && !PicksDouble(region, RequestOf(cfg)) ==>
                SameOutside(old(target.ram), target.ram, layout.bufferA, layout.bufferA + cfg.algo.src.pageSize)
      ensures NoWrap(RequestOf(cfg)) && StaysInside(cfg) ==>
                SameOutside(old(target.ram), target.ram, region.start, region.end)
    {
      ghost var q, before := RequestOf(cfg), target.ram;
      ghost var fits := NoWrap(q);
      if fits {
        PlaceExact(q);
      }
      var page := cfg.algo.src.pageSize;
      if PicksDouble(region, RequestOf(cfg)) {
        r := PerformDouble(file, page, addr, layout.bufferA, faithful);
        if fits && page % 4 == 0 {
          DoubleBuffersPlaced(region, q);
        }
      } else {
        r := PerformSimple(file, page, addr, layout.bufferA, faithful);
        if fits {
          SingleBufferInsideIff(region, q);
        }
      }
      if fits {
        ReadSame(before, target.ram, layout.stackBottom, 4);
        ReadSame(before, target.ram, q.load, q.len);
      }
    }

    /** The page buffers lie inside the region. */
    ghost predicate StaysInside(cfg: ConfigView)
      requires Usable(cfg)
      reads `region
    {
      && cfg.algo.src.pageSize % 4 == 0
      && (PicksDouble(region, RequestOf(cfg)) || RoomForOnePage(region, RequestOf(cfg)))
    }

    // ---- what the stage machine calls ------------------------------------

    /** The target is reset, whatever the host still believes. */
    method TriggerReset()
      requires Valid()
      modifies target`calls, target`flight
      ensures Valid() && target.flight.None? && target.calls == old(target.calls) + [Reset]
    {
      target.Note(Reset);
      target.flight := None;
    }

    /** The pins are tri-stated so that the target can run. */
    method ReleasePins()
      modifies `driven
      ensures !driven
    {
      driven := false;
    }

    /** Bring-up before procedures. */
    method BeginSession(faithful: bool) returns (r: Err)
      requires Valid()
      modifies `driven, target`calls, target`flight
      ensures Valid() && (old(target.flight).None? ==> target.flight.None?) && (faithful ==> r == Ok)
      ensures r == Ok ==> target.calls == old(target.calls) + [Reset]
    {
      driven := true;
      var ok: bool := *;
      if !ok && !faithful {
        return Fail;
      }
      TriggerReset();
      ok := *;
      r := if ok || faithful then Ok else Fail;
    }

    /**
     * Chip erase, falling back to sector erase, both inside Init(ERASE) brackets; success leaves
     * the device blank. Sectors make up for a chip erase that is missing or refused.
     */
    method Erase(cfg: ConfigView, refused: bool, faithful: bool) returns (r: Err)
      requires Valid() && LaidOut(cfg) && InStep(cfg, EraseMode) && target.flight.None?
      modifies this, target`ram, target`seen, target`flash, target`flight, target`calls
      ensures Valid() && LaidOut(cfg) && InStep(cfg, EraseMode) && target.flight.None?
      ensures r == Ok ==>
                && state == AlgUninited && cfg.algo.src.flashStart.Some? && cfg.algo.src.flashEnd.Some?
                && Blank(target.flash, cfg.algo.src.flashStart.value, cfg.algo.src.flashEnd.value)
      ensures faithful && CanErase(cfg) && !refused ==> r == Ok
      ensures faithful && CanEraseSectors(cfg) ==> r == Ok
    {
      var fa := cfg.algo.src;
      if fa.flashStart.None? || fa.flashEnd.None? {
        return InvalidState;
      }
      r := EraseChip(cfg, refused, faithful);
      if r != Ok {
        r := EraseSector(cfg, fa.flashStart.value, fa.flashEnd.value, faithful);
      }
    }

    /**
     * Whichever writer is chosen, success means the file has been programmed from flash_start
     * on, unless an address wraps around, and the canary survived.
     */
    method ProgramFile(cfg: ConfigView, files: Files, path: string, faithful: bool) returns (r: Err, written: nat)
      requires Valid() && LaidOut(cfg) && InStep(cfg, ProgramMode) && target.flight.None?
      modifies this, target`ram, target`seen, target`flash, target`flight, target`calls
      ensures Valid() && LaidOut(cfg) && InStep(cfg, ProgramMode)
      ensures r == Ok ==>
                && state == AlgUninited && target.flight.None? && CanaryOk()
                && path in files && cfg.algo.src.flashStart.Some?
                && written == |files[path]| && written >= 4 && written % 4 == 0
      ensures r == Ok && NoWrap(RequestOf(cfg)) && cfg.algo.src.flashStart.value + |files[path]| <= U32 ==>
                target.flash == Nor(old(target.flash), cfg.algo.src.flashStart.value, files[path])
      ensures faithful && CanProgram(cfg, files, path) ==> r == Ok
    {
      written := 0;
      if path !in files {
        return NotFound, 0;
      }
      var file, fa := files[path], cfg.algo.src;
      if |file| < 4 || |file| % 4 != 0 {
        return InvalidSize, 0;
      }
      written := |file|;
      if state != AlgInited {
        ghost var tries, loaded;
        r, tries, loaded := RunAlgoInit(cfg, ProgramMode, faithful);
        if r != Ok {
          return;
        }
      }
      if fa.pcProgramPage.None? || fa.flashStart.None? {
        return NotFound, written;
      }
      r := WritePages(cfg, file, fa.flashStart.value, faithful);
      if r == Ok {
        r := RunAlgoUninit(cfg, faithful);
      }
    }

    /** Read back in 512-byte pieces: OK exactly means the first len bytes agree. */
    method VerifyFile(cfg: ConfigView, files: Files, path: string, len: nat, faithful: bool) returns (r: Err)
      requires Valid() && Usable(cfg)
      modifies `state
      ensures state == old(state) || state == Unknown
      ensures r == Ok ==>
                && cfg.algo.src.flashStart.Some? && path in files && 0 < len <= |files[path]|
                && Read(target.flash, cfg.algo.src.flashStart.value, len) == files[path][..len]
      ensures faithful && cfg.algo.src.flashStart.Some? && path in files && 0 < len <= |files[path]| ==>
                (Read(target.flash, cfg.algo.src.flashStart.value, len) == files[path][..len] ==> r == Ok)
    {
      var ok: bool := *;
      if !ok && !faithful {
        state := Unknown;
        return InvalidState;
      }
      if cfg.algo.src.flashStart.None? {
        return InvalidState;
      }
      if len == 0 {
        return InvalidArg;
      }
      if path !in files {
        return NotFound;
      }
      var file, at, done := files[path], cfg.algo.src.flashStart.value, 0;
      while done < len
        modifies {}
        invariant 0 <= done <= len && done <= |file|
        invariant Read(target.flash, at, done) == file[..done]
      {
        var n := Min(512, len - done);
        ok := *;
        if !(ok || faithful) || done + n > |file| {
          return InvalidState;
        }
        PieceByPiece(target.flash, at, file, len, done, n);
        if file[done..done + n] != Read(target.flash, Wrap(at + done), n) {
          return InvalidCrc;
        }
        done := done + n;
      }
      r := Ok;
    }
  }

  /** What program_file asks of a job and its firmware. */
  predicate CanProgram(cfg: ConfigView, files: Files, path: string)
    requires Usable(cfg)
  {
    && CanBracket(cfg) && cfg.algo.src.pcProgramPage.Some?
    && path in files && |files[path]| >= 4 && |files[path]| % 4 == 0
  }

  // ---- sectors -----------------------------------------------------------

  /** Where sector i starts, before any wrap-around. */
  function SectorAddr(cfg: ConfigView, i: nat): nat
    requires Usable(cfg) && cfg.algo.src.flashStart.Some?
  {
    cfg.algo.src.flashStart.value + i * cfg.algo.src.pageSize
  }

  /** ErasePage for each of n sectors, upward from flash_start. */
  function SectorCalls(cfg: ConfigView, n: nat): seq<Call>
    requires Usable(cfg) && cfg.algo.src.flashStart.Some?
  {
    if n == 0 then [] else SectorCalls(cfg, n - 1) + [EraseSectorCall(Wrap(SectorAddr(cfg, n - 1)))]
  }

  lemma SectorNext(cfg: ConfigView, i: nat)
    requires Usable(cfg) && cfg.algo.src.flashStart.Some?
    ensures SectorAddr(cfg, i + 1) == SectorAddr(cfg, i) + cfg.algo.src.pageSize
    ensures SectorAddr(cfg, i + 1) <= U32 ==> Wrap(SectorAddr(cfg, i)) == SectorAddr(cfg, i)
  {
    assert (i + 1) * cfg.algo.src.pageSize == i * cfg.algo.src.pageSize + cfg.algo.src.pageSize;
  }

  /** Whole, non-empty sectors only; the subtraction is unsigned. */
  function SectorCount(start: uint32, end: uint32, page: uint32): Option<nat>
    requires page > 0
  {
    var size := Wrap(end - start);
    if size % page != 0 || size < page then None else Some(size / page)
  }

  /** The sectors of a range fill it. */
  lemma SectorsFill(start: uint32, end: uint32, page: uint32)
    requires page > 0 && SectorCount(start, end, page).Some?
    ensures start <= end ==> start + SectorCount(start, end, page).value * page == end
  {
    var size := Wrap(end - start);
    assert size == size / page * page + size % page;
  }

  predicate EndsWith(calls: seq<Call>, tail: seq<Call>) {
    |tail| <= |calls| && calls[|calls| - |tail|..] == tail
  }

  /** Comparing piece by piece is comparing the whole. */
  lemma PieceByPiece(flash: Bytes, at: uint32, file: Bytes, len: nat, done: nat, n: nat)
    requires |flash| == U32 && done + n <= |file| && done + n <= len && Read(flash, at, done) == file[..done]
    ensures file[done..done + n] == Read(flash, Wrap(at + done), n) ==> Read(flash, at, done + n) == file[..done + n]
    ensures len <= |file| && Read(flash, at, len) == file[..len] ==>
              file[done..done + n] == Read(flash, Wrap(at + done), n)
  {
    ReadSplit(flash, at, done, n);
    assert file[..done] + file[done..done + n] == file[..done + n];
    if len <= |file| && Read(flash, at, len) == file[..len] {
      ReadSplit(flash, at, done + n, len - (done + n));
      assert Read(flash, at, len)[done..done + n] == Read(flash, at, done + n)[done..];
      SubSlice(file, 0, len, done, done + n);
    }
  }

  // ---- pages -------------------------------------------------------------

  /** Two memories agree everywhere but from lo to hi. */
  predicate SameOutside(mem: Bytes, mem': Bytes, lo: int, hi: int) {
    |mem| == |mem'| && forall a :: 0 <= a < |mem| && !(lo <= a < hi) ==> mem'[a] == mem[a]
  }

  lemma PokeFrame(mem: Bytes, addr: nat, data: Bytes, hi: nat)
    requires |mem| == U32 && addr + |data| <= hi <= U32
    ensures SameOutside(mem, Poke(mem, addr, data), addr, hi)
  {
    forall a | 0 <= a < U32 && !(addr <= a < hi)
      ensures Poke(mem, addr, data)[a] == mem[a]
    {
      PokeInRange(mem, addr, data, a);
    }
  }

  lemma PageStep(k: nat, page: nat, done: nat, len: nat)
    requires page > 0 && done == Min(k * page, len) && done < len
    ensures done == k * page && done + Min(page, len - done) == Min((k + 1) * page, len)
  {
    assert (k + 1) * page == k * page + page;
  }

  lemma PageLands(start: Bytes, addr: nat, file: Bytes, done: nat, n: nat)
    requires done + n <= |file|
    ensures Nor(Nor(start, addr, file[..done]), addr + done, file[done..done + n]) == Nor(start, addr, file[..done + n])
  {
    NorExtend(start, addr, file[..done], file[done..done + n]);
    assert file[..done] + file[done..done + n] == file[..done + n];
  }
}
