/**
 * Where swd_prog places code, stack and page buffers in target RAM (main/prog/swd_prog.cpp,
 * load_flash_algorithm, init and program_file), in the 32-bit arithmetic of the source.
 */
module SwdLayout {
  import opened Base
  import opened Jobs

  function NextMultipleOf(input: uint32, of: uint32): uint32 {
    if of == 0 then 0 else
      var q := Wrap(input + of - 1) / of;
      assert q * of <= Wrap(input + of - 1) by { QuotientBound(Wrap(input + of - 1), of); }
      q * of
  }

  lemma QuotientBound(x: nat, d: nat)
    requires d > 0
    ensures 0 <= x / d * d <= x
  {
    assert x == x / d * d + x % d;
  }

  /** What init is given: load address and length of the blob, page size and stack size. */
  datatype Request = Request(load: uint32, len: uint32, page: uint32, stack: uint32)

  datatype Layout = Layout(
    codeEnd: uint32, stackBottom: uint32, stackTop: uint32, bufferA: uint32, bufferB: uint32, bufferTop: uint32)

  function CodeEnd(q: Request): uint32 { NextMultipleOf(Wrap(q.load + q.len), 8) }

  function StackBottom(codeEnd: uint32, page: uint32): uint32 { NextMultipleOf(Wrap(codeEnd + Wrap(page * 2)), 8) }

  function Place(q: Request): Layout {
    var stackBottom := StackBottom(CodeEnd(q), q.page);
    var stackTop := Wrap(stackBottom + q.stack);
    Layout(CodeEnd(q), stackBottom, stackTop, Wrap(stackTop + q.stack), Wrap(stackTop + q.stack + q.page),
           Wrap(stackTop + q.stack + Wrap(q.page * 2)))
  }

  /** The capacity check of init. */
  predicate CapacityOk(ram: RamRegion, q: Request) {
    ram.ContainsRange(q.load, Wrap(q.len + Wrap(Wrap(q.page * 2) + q.stack + 8)))
  }

  /** The test by which program_file picks the double-buffered writer. */
  predicate PicksDouble(ram: RamRegion, q: Request) {
    Wrap(ram.start + Wrap(ram.end - ram.start)) >= Place(q).bufferTop
  }

  function Pad8(x: nat): nat { (8 - x % 8) % 8 }

  /** None of the sums above passes 2^32. */
  predicate NoWrap(q: Request) {
    q.load + q.len + 4 * q.page + 2 * q.stack + 16 < U32
  }

  lemma WrapId(x: int)
    requires 0 <= x < U32
    ensures Wrap(x) == x
  {
  }

  lemma NextMultipleExact(x: nat)
    requires x + 8 < U32
    ensures NextMultipleOf(x, 8) == x + Pad8(x)
  {
  }

  lemma PadAligned(x: nat)
    ensures (x + Pad8(x)) % 8 == 0 && Pad8(x) < 8
  {
  }

  lemma PadShift(c: nat, y: nat)
    requires c % 8 == 0
    ensures Pad8(c + y) == Pad8(y)
  {
    assert (c + y) % 8 == y % 8;
  }

  lemma PadOfPages(page: nat)
    requires page % 4 == 0
    ensures Pad8(2 * page) == 0
  {
    assert 2 * page == 8 * (page / 4);
  }

  /** The layout without any modular arithmetic. */
  predicate IsLayout(q: Request, p: Layout) {
    && p.codeEnd == q.load + q.len + Pad8(q.load + q.len)
    && p.stackBottom == p.codeEnd + 2 * q.page + Pad8(2 * q.page)
    && p.stackTop == p.stackBottom + q.stack
    && p.bufferA == p.stackTop + q.stack && p.bufferB == p.bufferA + q.page && p.bufferTop == p.bufferA + 2 * q.page
  }

  /** Closed form of the layout. */
  lemma PlaceExact(q: Request)
    requires NoWrap(q)
    ensures IsLayout(q, Place(q))
  {
    var c := q.load + q.len + Pad8(q.load + q.len);
    PadAligned(q.load + q.len);
    PadAligned(2 * q.page);
    CodeEndExact(q);
    StackBottomExact(c, q.page);
    var b := c + 2 * q.page + Pad8(2 * q.page);
    WrapId(q.page * 2);
    WrapId(b + q.stack);
    WrapId(b + 2 * q.stack);
    WrapId(b + 2 * q.stack + q.page);
    WrapId(b + 2 * q.stack + 2 * q.page);
  }

  lemma CodeEndExact(q: Request)
    requires NoWrap(q)
    ensures CodeEnd(q) == q.load + q.len + Pad8(q.load + q.len)
  {
    WrapId(q.load + q.len);
    NextMultipleExact(q.load + q.len);
  }

  lemma StackBottomExact(codeEnd: uint32, page: uint32)
    requires codeEnd % 8 == 0 && codeEnd + 2 * page + 8 < U32
    ensures StackBottom(codeEnd, page) == codeEnd + 2 * page + Pad8(2 * page)
  {
    WrapId(page * 2);
    WrapId(codeEnd + 2 * page);
    NextMultipleExact(codeEnd + 2 * page);
    PadShift(codeEnd, 2 * page);
  }

  /** The checks without any modular arithmetic. */
  lemma ChecksExact(ram: RamRegion, q: Request)
    requires NoWrap(q)
    ensures CapacityOk(ram, q) <==> ram.start <= q.load && q.load + q.len + 2 * q.page + q.stack + 8 <= ram.end
    ensures CapacityOk(ram, q) ==> (PicksDouble(ram, q) <==> Place(q).bufferTop <= ram.end)
  {
    WrapId(q.page * 2);
    WrapId(2 * q.page + q.stack + 8);
    WrapId(q.len + 2 * q.page + q.stack + 8);
    if ram.start <= ram.end {
      WrapId(ram.end - ram.start);
      WrapId(ram.end);
      assert ram.start + Wrap(ram.end - ram.start) == ram.end;
    }
  }

  /** Smallest region the capacity check accepts. */
  function Tight(q: Request): RamRegion
    requires NoWrap(q)
  {
    RamRegion(q.load, q.load + q.len + 2 * q.page + q.stack + 8)
  }

  /**
   * The capacity check is enough for code and stack in every region it accepts exactly when
   * the two alignment gaps together stay within the eight bytes it allows for.
   */
  lemma StackFitsIff(q: Request)
    requires NoWrap(q)
    ensures (forall ram: RamRegion :: CapacityOk(ram, q) ==> Place(q).stackTop <= ram.end) <==>
              Pad8(q.load + q.len) + Pad8(2 * q.page) <= 8
  {
    PlaceExact(q);
    ChecksExact(Tight(q), q);
    forall ram: RamRegion
      ensures CapacityOk(ram, q) ==> q.load + q.len + 2 * q.page + q.stack + 8 <= ram.end
    {
      ChecksExact(ram, q);
    }
  }

  predicate Inside(ram: RamRegion, lo: int, hi: int) { ram.start <= lo <= hi <= ram.end }

  /** With a page size that is a multiple of four, code and stack are inside and apart. */
  lemma CodeAndStackPlaced(ram: RamRegion, q: Request)
    requires NoWrap(q) && CapacityOk(ram, q) && q.page % 4 == 0
    ensures var p := Place(q);
            && Inside(ram, q.load, q.load + q.len)
            && Inside(ram, p.stackBottom, p.stackTop)
            && q.load + q.len <= p.codeEnd <= p.stackBottom
  {
    PlaceExact(q);
    ChecksExact(ram, q);
    PadOfPages(q.page);
    PadAligned(q.load + q.len);
  }

  /**
   * When the double-buffered writer is chosen, both page buffers lie inside the region, above
   * code, stack and canary word, and do not meet each other.
   */
  lemma DoubleBuffersPlaced(ram: RamRegion, q: Request)
    requires NoWrap(q) && CapacityOk(ram, q) && q.page % 4 == 0 && q.stack >= 4 && PicksDouble(ram, q)
    ensures var p := Place(q);
            && Inside(ram, p.bufferA, p.bufferA + q.page) && Inside(ram, p.bufferB, p.bufferB + q.page)
            && p.bufferA + q.page <= p.bufferB
            && p.stackBottom + 4 <= p.stackTop <= p.bufferA
            && q.load + q.len <= p.bufferA
  {
    PlaceExact(q);
    ChecksExact(ram, q);
    CodeAndStackPlaced(ram, q);
  }

  /** Room for code, the two reserved pages, stack, the stack-sized gap above it and one more page. */
  predicate RoomForOnePage(ram: RamRegion, q: Request) {
    q.load + q.len + Pad8(q.load + q.len) + Pad8(2 * q.page) + 3 * q.page + 2 * q.stack <= ram.end
  }

  /** The single-buffer writer has its page inside the region exactly when the region has that room. */
  lemma SingleBufferInsideIff(ram: RamRegion, q: Request)
    requires NoWrap(q) && CapacityOk(ram, q)
    ensures Inside(ram, Place(q).bufferA, Place(q).bufferA + q.page) <==> RoomForOnePage(ram, q)
  {
    PlaceExact(q);
    ChecksExact(ram, q);
  }

  /**
   * The capacity check does not give that room: in every region it accepts with nothing to
   * spare, a stack of eight bytes or more puts the page buffer wholly outside the region, and
   * the single-buffer writer is the one that is chosen.
   */
  lemma SingleBufferCanLieOutside(q: Request)
    requires NoWrap(q) && q.page % 4 == 0 && q.page > 0 && q.stack >= 8
    ensures CapacityOk(Tight(q), q) && !PicksDouble(Tight(q), q) && Place(q).bufferA >= Tight(q).end
  {
    PlaceExact(q);
    ChecksExact(Tight(q), q);
    PadOfPages(q.page);
  }

  /**
   * The halt word goes right below the code. The capacity check starts at the code, so it
   * covers that word exactly when the code does not start in the first four bytes of the region.
   */
  lemma HaltWordInsideIff(ram: RamRegion, q: Request)
    requires NoWrap(q) && CapacityOk(ram, q)
    ensures Inside(ram, q.load - 4, q.load) <==> ram.start + 4 <= q.load
    ensures CapacityOk(Tight(q), q) && !Inside(Tight(q), q.load - 4, q.load)
  {
    ChecksExact(ram, q);
    ChecksExact(Tight(q), q);
  }
}
