/**
 * The serial backend (main/prog/esp32_serial_backend.cpp): connection lifecycle, streaming and
 * read-back, over a target that may fail any call unless it is declared faithful.
 */
module Esp32Backend {
  import opened Base
  import opened Jobs
  import opened Memory
  import opened Esp32Flash

  /** The loader library and the chip behind it. */
  class Loader {
    var open: bool
    var flash: Bytes
    var sessionOffset: nat     // flash_start's offset
    var sessionSeq: nat        // blocks written since
    ghost var erased: Bytes    // flash as flash_start left it
    ghost var stream: Bytes    // everything sent since

    ghost predicate Valid()
      reads this
    {
      |flash| == U32
    }

    constructor (contents: Bytes)
      requires |contents| == U32
      ensures Valid() && !open && flash == contents
    {
      open, flash, sessionOffset, sessionSeq, erased, stream := false, contents, 0, 0, contents, [];
    }

    method FlashStart(offset: nat, size: nat, faithful: bool) returns (ok: bool)
      requires Valid()
      modifies `flash, `sessionOffset, `sessionSeq, `erased, `stream
      ensures Valid() && (faithful ==> ok)
      ensures ok ==>
                erased == EraseSectors(old(flash), offset, size) && sessionOffset == offset && sessionSeq == 0
                    && stream == [] && Streamed()
    {
      ok := *;
      ok := ok || faithful;
      flash := EraseSectors(flash, offset, size);
      sessionOffset, sessionSeq, erased, stream := offset, 0, flash, [];
      assert Nor(flash, offset, []) == flash;
    }

    /** The flash is what flash_start left, with the stream programmed from its offset on. */
    ghost predicate Streamed()
      reads this
    {
      flash == Nor(erased, sessionOffset, stream)
    }

    /**
     * Block number sessionSeq of the image: the library, not the caller, tracks the address, so
     * the stream is contiguous only as long as every earlier block was a full one.
     */
    method FlashWrite(data: Bytes, faithful: bool) returns (ok: bool)
      requires Valid() && Streamed() && |data| <= BLOCK
      modifies `flash, `sessionSeq, `stream
      ensures Valid() && (faithful ==> ok)
      ensures ok ==> stream == old(stream) + data && sessionSeq == old(sessionSeq) + 1
      ensures |old(stream)| == BLOCK * old(sessionSeq) ==> Streamed()
    {
      ok := *;
      ok := ok || faithful;
      if |stream| == BLOCK * sessionSeq {
        NorExtend(erased, sessionOffset, stream, data);
      }
      flash := Nor(flash, sessionOffset + BLOCK * sessionSeq, data);
      sessionSeq, stream := sessionSeq + 1, stream + data;
    }

    /** Firmware that runs on the target may leave its flash in any state. */
    method RewriteFlash()
      requires Valid()
      modifies `flash
      ensures Valid()
    {
      assert |flash| == U32;
      var any: Bytes :| |any| == U32;
      flash := any;
    }

    method FlashFinish(faithful: bool) returns (ok: bool)
      ensures faithful ==> ok
    {
      ok := *;
      ok := ok || faithful;
    }

    method FlashRead(addr: nat, n: nat, faithful: bool) returns (ok: bool, data: Bytes)
      requires Valid() && addr + n <= U32
      ensures (faithful ==> ok) && data == flash[addr..addr + n]
    {
      ok := *;
      ok, data := ok || faithful, flash[addr..addr + n];
    }
  }

  /** Outcomes of the calls a connection attempt makes. */
  datatype Probe = Probe(
    initOk: bool, connectOk: bool, chipMatches: bool, detectOk: bool, detectedSize: uint32, rateOk: bool)

  const MAX_FLASH_SIZE_KB := 256 * 1024

  /** The smaller of the configured and the detected size, as far as each is available. */
  function LimitOf(cfg: ConfigView, p: Probe): Option<uint32> {
    if cfg.flashSizeKb.Some? then
      var kb := cfg.flashSizeKb.value;
      if kb == 0 || kb > MAX_FLASH_SIZE_KB then None
      else Some(if p.detectOk then Min(kb * 1024, p.detectedSize) else kb * 1024)
    else if p.detectOk then Some(p.detectedSize)
    else None
  }

  /** The limit is the smallest size that is known, and there is none exactly when none is known or configured badly. */
  lemma LimitIs(cfg: ConfigView, p: Probe)
    ensures var l := LimitOf(cfg, p);
            && (l.None? <==>
                  if cfg.flashSizeKb.Some? then cfg.flashSizeKb.value == 0 || cfg.flashSizeKb.value * 1024 > 0x1000_0000
                  else !p.detectOk)
            && (l.Some? && cfg.flashSizeKb.Some? ==> l.value <= cfg.flashSizeKb.value * 1024)
            && (l.Some? && p.detectOk ==> l.value <= p.detectedSize)
            && (l.Some? ==>
                  || (cfg.flashSizeKb.Some? && l.value == cfg.flashSizeKb.value * 1024)
                  || (p.detectOk && l.value == p.detectedSize))
  {
  }

  /** A configured size keeps the limit far below the point where sector ends stop being exact. */
  lemma ConfiguredLimitIsExact(cfg: ConfigView, p: Probe)
    requires cfg.flashSizeKb.Some? && LimitOf(cfg, p).Some?
    ensures LimitOf(cfg, p).value <= 0x1000_0000 <= EXACT_LIMIT
  {
  }

  /** Exactly when a connection attempt succeeds. */
  predicate Connects(cfg: ConfigView, files: Files, p: Probe) {
    && p.initOk && p.connectOk && p.chipMatches
    && LimitOf(cfg, p).Some? && ImagesAccepted(files, cfg.images, LimitOf(cfg, p).value)
    && (cfg.baud > DEFAULT_BAUD ==> p.rateOk)
  }

  class Backend {
    const loader: Loader
    var connected: bool
    var flashLimit: uint32
    const block: array<byte>
    ghost var checkedImages: seq<CfgImage>
    ghost var checkedFiles: Files

    /**
     * At rest: the loader is open exactly when connected; a closed connection has no limit; an
     * open one was validated against its limit.
     */
    ghost predicate Valid()
      reads this, loader
    {
      && loader.Valid() && block.Length == BLOCK
      && (connected <==> loader.open)
      && (!connected ==> flashLimit == 0)
      && (connected ==> ImagesAccepted(checkedFiles, checkedImages, flashLimit))
    }

    /** An open connection belongs to this job. */
    ghost predicate For(cfg: ConfigView, files: Files)
      reads this
    {
      connected ==> checkedImages == cfg.images && checkedFiles == files
    }

    constructor (loader: Loader)
      requires loader.Valid() && !loader.open
      ensures Valid() && !connected && this.loader == loader && fresh(block)
    {
      this.loader, connected, flashLimit := loader, false, 0;
      block := new byte[BLOCK](_ => 0);
      checkedImages, checkedFiles := [], map[];
    }

    /** One image on its own, and its sector range as the code stores it. */
    method CheckImage(files: Files, image: CfgImage, limit: uint32) returns (r: Err, range: StoredRange)
      ensures r == Ok <==> ImageFits(files, image, limit)
      ensures r == Ok ==> range == RangeOf(files, image)
    {
      range := StoredRange(0, 0);
      if image.path !in files {
        return NotFound, range;
      }
      var size := |files[image.path]|;
      if size <= 0 || size > U32 - 4 {
        return InvalidSize, range;
      }
      if image.offset % 4 != 0 {
        return InvalidArg, range;
      }
      var padded := PaddedLen(size);
      if image.offset > limit || padded > limit - image.offset {
        return InvalidSize, range;
      }
      r, range := Ok, StoredRange(SectorStart(image.offset), Wrap(SectorEnd(image.offset, padded)));
    }

    method MeetsNone(range: StoredRange, ranges: seq<StoredRange>) returns (apart: bool)
      ensures apart <==> forall j :: 0 <= j < |ranges| ==> !Overlap(range, ranges[j])
    {
      for prev := 0 to |ranges|
        invariant forall j :: 0 <= j < prev ==> !Overlap(range, ranges[j])
      {
        if range.start < ranges[prev].end && ranges[prev].start < range.end {
          return false;
        }
      }
      apart := true;
    }

    method ValidateImages(images: seq<CfgImage>, files: Files, limit: uint32) returns (r: Err)
      ensures r == Ok <==> ImagesAccepted(files, images, limit)
    {
      var ranges: seq<StoredRange> := [];
      for i := 0 to |images|
        invariant |ranges| == i && RangesAccepted(files, images, i, ranges, limit)
      {
        var range;
        r, range := CheckImage(files, images[i], limit);
        if r != Ok {
          return;
        }
        var apart := MeetsNone(range, ranges);
        if !apart {
          OverlapRefuses(files, images, i, ranges, limit);
          return InvalidArg;
        }
        ranges := ranges + [range];
      }
      AllAccepted(files, images, ranges, limit);
      r := Ok;
    }

    /** connect_locked: every early exit leaves the backend closed and at rest. */
    method Connect(cfg: ConfigView, files: Files, p: Probe) returns (r: Err)
      requires Valid() && For(cfg, files)
      modifies this, loader`open
      ensures Valid() && For(cfg, files) && (r == Ok <==> connected)
      ensures old(connected) ==> r == Ok && flashLimit == old(flashLimit)
      ensures !old(connected) ==> (connected <==> Connects(cfg, files, p))
      ensures !old(connected) && connected ==> LimitOf(cfg, p) == Some(flashLimit)
      ensures !old(connected) && connected ==> p.initOk && p.connectOk && p.chipMatches
      ensures !old(connected) && connected ==> (cfg.baud > 115200 ==> p.rateOk)
    {
      if connected {
        return Ok;
      }
      flashLimit := 0;
      if !p.initOk {
        return Fail;
      }
      loader.open := true;
      if !p.connectOk {
        loader.open := false;
        return Timeout;
      }
      if !p.chipMatches {
        loader.open := false;
        return InvalidState;
      }
      if cfg.flashSizeKb.Some? {
        var kb := cfg.flashSizeKb.value;
        if kb == 0 || kb > MAX_FLASH_SIZE_KB {
          loader.open := false;
          return InvalidSize;
        }
        flashLimit := if p.detectOk then Min(kb * 1024, p.detectedSize) else kb * 1024;
      } else {
        if !p.detectOk {
          loader.open := false;
          return Timeout;
        }
        flashLimit := p.detectedSize;
      }
      r := ValidateImages(cfg.images, files, flashLimit);
      if r != Ok {
        loader.open, flashLimit := false, 0;
        return;
      }
      if cfg.baud > DEFAULT_BAUD && !p.rateOk {
        loader.open, flashLimit := false, 0;
        return Timeout;
      }
      checkedImages, checkedFiles := cfg.images, files;
      connected := true;
    }

    method ReleaseTransport()
      requires Valid()
      modifies this, loader`open
      ensures Valid() && !connected && flashLimit == 0
    {
      if connected {
        loader.open, connected := false, false;
      }
      flashLimit := 0;
    }

    /** fread into the block, and the 0xFF tail behind the last byte of the file. */
    method NextBlock(data: Bytes, cursor: nat) returns (n: nat)
      requires block.Length == BLOCK && cursor < |data| && cursor % BLOCK == 0
      modifies block
      ensures n <= BLOCK && block[..n] == BlockAt(data, cursor)
    {
      var want := Min(|data| - cursor, BLOCK);
      n := want;
      forall i | 0 <= i < want {
        block[i] := data[cursor + i];
      }
      if cursor + want == |data| {
        TailFits(|data|, cursor);
        n := want + PaddedLen(|data|) - |data|;
        forall i | want <= i < n {
          block[i] := 0xFF;
        }
      }
      assert block[..n] == BlockAt(data, cursor);
    }

    /** Both transfers refuse a file that does not fit any more. */
    method CheckFit(files: Files, image: CfgImage) returns (r: Err)
      ensures r == Ok <==> ImageFits(files, image, flashLimit)
    {
      if image.path !in files {
        return NotFound;
      }
      var size := |files[image.path]|;
      if size == 0 || size > U32 - 4 {
        return InvalidSize;
      }
      var padded := PaddedLen(size);
      var outside := image.offset > flashLimit || padded > flashLimit - image.offset;
      r := if image.offset % 4 != 0 || outside then InvalidSize else Ok;
    }

    /** One turn of the streaming loop. */
    method SendBlock(data: Bytes, cursor: nat, faithful: bool) returns (ok: bool)
      requires loader.Valid() && loader.Streamed() && block.Length == BLOCK
      requires cursor < |data| && cursor == BLOCK * loader.sessionSeq && loader.stream == Sent(data, cursor)
      modifies block, loader`flash, loader`sessionSeq, loader`stream
      ensures loader.Valid() && loader.Streamed() && (faithful ==> ok)
      ensures ok ==>
                loader.sessionSeq == old(loader.sessionSeq) + 1
                    && loader.stream == Sent(data, cursor + Min(|data| - cursor, BLOCK))
    {
      var n := NextBlock(data, cursor);
      SentExtends(data, cursor);
      ok := loader.FlashWrite(block[..n], faithful);
    }

    /**
     * Stream one file. The bytes sent are the file and its 0xFF tail, each block lands where the
     * previous one ended, and no block overruns the buffer.
     */
    method ProgramOneImage(files: Files, image: CfgImage, faithful: bool) returns (r: Err, written: nat)
      requires Valid() && connected
      modifies block, loader`flash, loader`sessionOffset, loader`sessionSeq, loader`erased, loader`stream
      ensures loader.Valid()
      ensures r == Ok ==>
                && ImageFits(files, image, flashLimit) && written == |files[image.path]|
                && loader.stream == Padded(files[image.path])
                && loader.flash == Programmed(old(loader.flash), image.offset, Padded(files[image.path]))
      ensures faithful && ImageFits(files, image, flashLimit) ==> r == Ok
    {
      written := 0;
      r := CheckFit(files, image);
      if r != Ok {
        return;
      }
      var data := files[image.path];
      var ok := loader.FlashStart(image.offset, PaddedLen(|data|), faithful);
      if !ok {
        return Fail, 0;
      }
      var remaining := |data|;
      while remaining > 0
        modifies block, loader`flash, loader`sessionSeq, loader`stream
        invariant 0 <= remaining <= |data| && loader.Valid() && loader.Streamed()
        invariant remaining > 0 ==> |data| - remaining == BLOCK * loader.sessionSeq
        invariant loader.stream == Sent(data, |data| - remaining)
      {
        ok := SendBlock(data, |data| - remaining, faithful);
        if !ok {
          return Fail, 0;
        }
        remaining := remaining - Min(remaining, BLOCK);
      }
      ok := loader.FlashFinish(faithful);
      if !ok {
        return Fail, 0;
      }
      r, written := Ok, |data|;
    }

    /** One turn of the read-back loop. */
    method CompareBlock(data: Bytes, cursor: nat, ghost offset: nat, at: nat, faithful: bool) returns (r: Err, n: nat)
      requires loader.Valid() && block.Length == BLOCK && cursor < |data| && cursor % BLOCK == 0
      requires offset + PaddedLen(|data|) <= U32 && at == offset + cursor && loader.flash[offset..at] == data[..cursor]
      modifies block
      ensures n == |BlockAt(data, cursor)|
      ensures offset + |Sent(data, cursor + Min(|data| - cursor, BLOCK))| == at + n <= U32
      ensures r == Ok ==> loader.flash[offset..at + n] == Sent(data, cursor + Min(|data| - cursor, BLOCK))
      ensures faithful && Holds(loader.flash, offset, Padded(data)) ==> r == Ok
    {
      n := NextBlock(data, cursor);
      SentExtends(data, cursor);
      var ok, back := loader.FlashRead(at, n, faithful);
      if Holds(loader.flash, offset, Padded(data)) {
        HoldsBlock(loader.flash, offset, data, cursor);
      }
      r := if !ok then Timeout else if block[..n] != back then InvalidCrc else Ok;
      if r == Ok {
        assert loader.flash[offset..at] + loader.flash[at..at + n] == loader.flash[offset..at + n];
      }
    }

    /** Compare one file and its tail with the flash, block by block. */
    method VerifyOneImage(files: Files, image: CfgImage, faithful: bool) returns (r: Err)
      requires Valid() && connected
      modifies block
      ensures r == Ok ==>
                ImageFits(files, image, flashLimit) && Holds(loader.flash, image.offset, Padded(files[image.path]))
      ensures faithful && ImageFits(files, image, flashLimit)
                && Holds(loader.flash, image.offset, Padded(files[image.path])) ==>
                r == Ok
    {
      r := CheckFit(files, image);
      if r != Ok {
        return;
      }
      var data := files[image.path];
      var at, remaining := image.offset, |data|;
      while remaining > 0
        modifies block
        invariant 0 <= remaining <= |data|
        invariant remaining > 0 ==> (|data| - remaining) % BLOCK == 0
        invariant at == image.offset + |Sent(data, |data| - remaining)| <= U32
        invariant loader.flash[image.offset..at] == Sent(data, |data| - remaining)
      {
        var n;
        r, n := CompareBlock(data, |data| - remaining, image.offset, at, faithful);
        if r != Ok {
          return;
        }
        at, remaining := at + n, remaining - Min(remaining, BLOCK);
      }
      r := Ok;
    }

    /** Program the next image of the list; the earlier ones survive it. */
    method ProgramNext(files: Files, images: seq<CfgImage>, i: nat, faithful: bool) returns (r: Err, one: nat)
      requires Valid() && connected && checkedImages == images && checkedFiles == files && i < |images|
      requires flashLimit <= EXACT_LIMIT ==> AllHold(loader.flash, files, images[..i])
      modifies block, loader`flash, loader`sessionOffset, loader`sessionSeq, loader`erased, loader`stream
      ensures loader.Valid() && (faithful ==> r == Ok)
      ensures r == Ok ==> images[i].path in files && one == |files[images[i].path]|
      ensures r == Ok && flashLimit <= EXACT_LIMIT ==> AllHold(loader.flash, files, images[..i + 1])
    {
      ghost var before := loader.flash;
      AcceptedWhenExact(files, images, flashLimit);
      r, one := ProgramOneImage(files, images[i], faithful);
      if r == Ok && flashLimit <= EXACT_LIMIT {
        NextImageKeepsEarlier(before, files, images, i, flashLimit);
      }
    }

    /** Program every image in list order. */
    method ProgramAll(files: Files, images: seq<CfgImage>, faithful: bool) returns (r: Err, total: uint32)
      requires Valid() && connected && checkedImages == images && checkedFiles == files
      modifies block, loader`flash, loader`sessionOffset, loader`sessionSeq, loader`erased, loader`stream
      ensures loader.Valid() && (faithful ==> r == Ok)
      ensures r == Ok && flashLimit <= EXACT_LIMIT ==> AllHold(loader.flash, files, images)
      ensures r == Ok ==> total == Wrap(FileBytes(files, images))
    {
      total := 0;
      for i := 0 to |images|
        invariant loader.Valid()
        invariant flashLimit <= EXACT_LIMIT ==> AllHold(loader.flash, files, images[..i])
        invariant total == Wrap(FileBytes(files, images[..i]))
      {
        var one;
        r, one := ProgramNext(files, images, i, faithful);
        if r != Ok {
          return;
        }
        CountNext(files, images, i);
        total := Wrap(total + one);
      }
      assert images[..|images|] == images;
      r := Ok;
    }

    /** Connect if need be, then program everything; earlier images survive the later ones. */
    method Program(cfg: ConfigView, files: Files, p: Probe, faithful: bool) returns (r: Err, total: uint32)
      requires Valid() && For(cfg, files)
      modifies this, block, loader
      ensures Valid() && For(cfg, files) && (r == Ok ==> connected)
      ensures old(connected) ==> connected && flashLimit == old(flashLimit)
      ensures r == Ok && flashLimit <= EXACT_LIMIT ==> AllHold(loader.flash, files, cfg.images)
      ensures r == Ok ==> total == Wrap(FileBytes(files, cfg.images))
      ensures faithful && connected ==> r == Ok
    {
      total := 0;
      r := Connect(cfg, files, p);
      if r == Ok {
        r, total := ProgramAll(files, cfg.images, faithful);
      }
    }

    method VerifyAll(files: Files, images: seq<CfgImage>, faithful: bool) returns (r: Err)
      requires Valid() && connected && checkedImages == images && checkedFiles == files
      modifies block
      ensures r == Ok ==> AllHold(loader.flash, files, images)
      ensures faithful && AllHold(loader.flash, files, images) ==> r == Ok
    {
      for i := 0 to |images|
        invariant forall j :: 0 <= j < i ==>
                    images[j].path in files && Holds(loader.flash, images[j].offset, Padded(files[images[j].path]))
      {
        r := VerifyOneImage(files, images[i], faithful);
        if r != Ok {
          return;
        }
      }
      r := Ok;
    }

    /** Read everything back: OK means every image is in flash, and a faithful target that has them passes. */
    method Verify(cfg: ConfigView, files: Files, p: Probe, faithful: bool) returns (r: Err)
      requires Valid() && For(cfg, files)
      modifies this, block, loader`open
      ensures Valid() && For(cfg, files) && (r == Ok ==> connected)
      ensures old(connected) ==> connected && flashLimit == old(flashLimit)
      ensures r == Ok ==> AllHold(loader.flash, files, cfg.images)
      ensures faithful && connected && AllHold(loader.flash, files, cfg.images) ==> r == Ok
    {
      r := Connect(cfg, files, p);
      if r == Ok {
        r := VerifyAll(files, cfg.images, faithful);
      }
    }
  }

  // ---- streaming ---------------------------------------------------------

  /** What has gone out after the first n file bytes: the tail goes with the last of them. */
  function Sent(data: Bytes, n: nat): Bytes
    requires n <= |data|
  {
    if n == |data| then Padded(data) else data[..n]
  }

  /** The block that starts at cursor. */
  function BlockAt(data: Bytes, cursor: nat): Bytes
    requires cursor < |data|
  {
    FileBlock(data, cursor, |data|, BLOCK, true)
  }

  /** The padded length is the least multiple of four that is long enough. */
  lemma PaddedIsLeast(n: nat, m: nat)
    requires n <= 4 * m
    ensures PaddedLen(n) <= 4 * m
  {
  }

  /** The last block of a file has room for its tail: only a block shorter than 4096 has one. */
  lemma TailFits(len: nat, cursor: nat)
    requires cursor < len <= cursor + BLOCK && cursor % BLOCK == 0
    ensures (len - cursor) + (PaddedLen(len) - len) <= BLOCK
  {
    assert cursor + BLOCK == 4 * (1024 * (cursor / BLOCK) + 1024);
    PaddedIsLeast(len, 1024 * (cursor / BLOCK) + 1024);
  }

  lemma SentExtends(data: Bytes, cursor: nat)
    requires cursor < |data|
    ensures Sent(data, cursor + Min(|data| - cursor, BLOCK)) == Sent(data, cursor) + BlockAt(data, cursor)
  {
    var want := Min(|data| - cursor, BLOCK);
    assert data[..cursor] + data[cursor..cursor + want] == data[..cursor + want];
    assert data[..|data|] == data;
  }

  lemma HoldsBlock(flash: Bytes, offset: nat, data: Bytes, cursor: nat)
    requires cursor < |data| && Holds(flash, offset, Padded(data))
    ensures var n := |BlockAt(data, cursor)|;
            offset + cursor + n <= |flash| && flash[offset + cursor..offset + cursor + n] == BlockAt(data, cursor)
  {
    var block := BlockAt(data, cursor);
    var range := flash[offset..offset + |Padded(data)|];
    SentExtends(data, cursor);
    SubSlice(flash, offset, offset + |Padded(data)|, cursor, cursor + |block|);
    assert Padded(data)[cursor..cursor + |block|] == block;
  }

  // ---- several images ----------------------------------------------------

  /** The first n images fit, their ranges are stored, and no two of these overlap. */
  predicate RangesAccepted(files: Files, images: seq<CfgImage>, n: nat, ranges: seq<StoredRange>, limit: uint32) {
    && n <= |images| && n <= |ranges|
    && (forall j :: 0 <= j < n ==> ImageFits(files, images[j], limit) && ranges[j] == RangeOf(files, images[j]))
    && (forall k, j :: 0 <= j < k < n ==> !Overlap(ranges[k], ranges[j]))
  }

  lemma OverlapRefuses(files: Files, images: seq<CfgImage>, i: nat, ranges: seq<StoredRange>, limit: uint32)
    requires RangesAccepted(files, images, i, ranges, limit) && i < |images| && |ranges| == i
    requires ImageFits(files, images[i], limit)
    requires exists j :: 0 <= j < i && Overlap(RangeOf(files, images[i]), ranges[j])
    ensures !ImagesAccepted(files, images, limit)
  {
    var j :| 0 <= j < i && Overlap(RangeOf(files, images[i]), ranges[j]);
    assert !TestedApart(files, images[i], images[j]);
  }

  lemma AllAccepted(files: Files, images: seq<CfgImage>, ranges: seq<StoredRange>, limit: uint32)
    requires |ranges| == |images| && RangesAccepted(files, images, |images|, ranges, limit)
    ensures ImagesAccepted(files, images, limit)
  {
    forall i, j | 0 <= j < i < |images|
      ensures TestedApart(files, images[i], images[j])
    {
      assert !Overlap(ranges[i], ranges[j]);
    }
  }

  predicate AllHold(flash: Bytes, files: Files, images: seq<CfgImage>) {
    forall i :: 0 <= i < |images| ==>
      images[i].path in files && Holds(flash, images[i].offset, Padded(files[images[i].path]))
  }

  /** Length of all files together, tails not counted. */
  function FileBytes(files: Files, images: seq<CfgImage>): nat {
    if images == [] then 0
    else
      var last := images[|images| - 1].path;
      FileBytes(files, images[..|images| - 1]) + if last in files then |files[last]| else 0
  }

  lemma CountNext(files: Files, images: seq<CfgImage>, i: nat)
    requires i < |images| && images[i].path in files
    ensures Wrap(Wrap(FileBytes(files, images[..i])) + |files[images[i].path]|)
              == Wrap(FileBytes(files, images[..i + 1]))
  {
    assert images[..i + 1][..i] == images[..i];
    WrapAdd(FileBytes(files, images[..i]), |files[images[i].path]|);
  }

  lemma AcceptedWhenExact(files: Files, images: seq<CfgImage>, limit: uint32)
    requires ImagesAccepted(files, images, limit)
    ensures AllFit(files, images, limit)
    ensures limit <= EXACT_LIMIT ==> PairwiseApart(files, images)
  {
    if limit <= EXACT_LIMIT {
      AcceptedIffDisjoint(files, images, limit);
    }
  }

  lemma NextImageKeepsEarlier(flash: Bytes, files: Files, images: seq<CfgImage>, i: nat, limit: uint32)
    requires |flash| == U32 && i < |images| && AllFit(files, images, limit) && PairwiseApart(files, images)
    requires AllHold(flash, files, images[..i])
    ensures AllHold(Programmed(flash, images[i].offset, Padded(files[images[i].path])), files, images[..i + 1])
  {
    var data := Padded(files[images[i].path]);
    var after := Programmed(flash, images[i].offset, data);
    ProgrammedHolds(flash, images[i].offset, data);
    forall j | 0 <= j < i + 1
      ensures images[j].path in files && Holds(after, images[j].offset, Padded(files[images[j].path]))
    {
      if j < i {
        assert images[..i][j] == images[j];
        assert SectorsApart(files, images[i], images[j]);
        OtherImageSurvives(flash, images[i].offset, data, images[j].offset, Padded(files[images[j].path]));
      }
    }
  }
}
