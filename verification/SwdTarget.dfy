/**
 * A Cortex-M target behind the SWD host driver: RAM, flash, one flash-algorithm call that may
 * be in flight, and the history of calls. An in-flight ProgramPage may read each byte of its
 * RAM buffer at any moment between launch and completion.
 */
module SwdTarget {
  import opened Base
  import opened Memory

  datatype Mode = EraseMode | ProgramMode

  datatype Call =
    | Reset | Load | InitCall(mode: Mode, ok: bool) | UninitCall
    | EraseAllCall | EraseSectorCall(sector: nat) | ProgramCall(addr: nat, len: nat) | SelfTestCall(id: nat, value: nat)

  // ---- the Init/UnInit bracket -------------------------------------------

  /** Calls after which no earlier Init counts any more. */
  predicate Ends(c: Call) { c.Reset? || c.Load? || c.InitCall? || c.UninitCall? }

  /** Mode of the bracket that is open after a history, if any. */
  function OpenMode(calls: seq<Call>): Option<Mode> {
    if calls == [] then None
    else
      var c := calls[|calls| - 1];
      if c.InitCall? && c.ok then Some(c.mode)
      else if Ends(c) then None
      else OpenMode(calls[..|calls| - 1])
  }

  function NeededMode(c: Call): Option<Mode> {
    match c
    case EraseAllCall => Some(EraseMode)
    case EraseSectorCall(_) => Some(EraseMode)
    case ProgramCall(_, _) => Some(ProgramMode)
    case _ => None
  }

  /** Every erase and program call falls into an open bracket of its mode. */
  predicate Bracketed(calls: seq<Call>) {
    forall i :: 0 <= i < |calls| && NeededMode(calls[i]).Some? ==> OpenMode(calls[..i]) == NeededMode(calls[i])
  }

  lemma BracketedExtends(calls: seq<Call>, c: Call)
    requires Bracketed(calls) && (NeededMode(c).Some? ==> OpenMode(calls) == NeededMode(c))
    ensures Bracketed(calls + [c])
    ensures OpenMode(calls + [c]) == (if c.InitCall? && c.ok then Some(c.mode) else if Ends(c) then None
              else OpenMode(calls))
  {
    var t := calls + [c];
    assert t[..|calls|] == calls;
    assert forall i :: 0 <= i < |calls| ==> t[i] == calls[i] && t[..i] == calls[..i];
  }

  /** An open bracket is a successful Init in that mode with no UnInit, load, reset or Init since. */
  lemma {:induction false} OpenModeMeans(calls: seq<Call>, m: Mode)
    ensures OpenMode(calls) == Some(m) <==>
            exists j :: 0 <= j < |calls| && calls[j] == InitCall(m, true) && forall k :: j < k < |calls| ==>
                !Ends(calls[k])
  {
    if calls != [] {
      var init, c := calls[..|calls| - 1], calls[|calls| - 1];
      OpenModeMeans(init, m);
      if c == InitCall(m, true) {
        assert calls[|calls| - 1] == InitCall(m, true);
      } else if !Ends(c) && OpenMode(calls) == Some(m) {
        var j :| 0 <= j < |init| && init[j] == InitCall(m, true) && forall k :: j < k < |init| ==> !Ends(init[k]);
        assert calls[j] == InitCall(m, true) && forall k :: j < k < |calls| ==> !Ends(calls[k]);
      } else if !Ends(c) && OpenMode(calls) != Some(m) {
        forall j | 0 <= j < |calls| && calls[j] == InitCall(m, true)
          ensures exists k :: j < k < |calls| && Ends(calls[k])
        {
          assert init[j] == InitCall(m, true);
          var k :| j < k < |init| && Ends(init[k]);
          assert Ends(calls[k]);
        }
      } else {
        assert Ends(calls[|calls| - 1]);
      }
    }
  }

  // ---- the chip ----------------------------------------------------------

  /** A ProgramPage call on its way: where the page goes and where its bytes are read from. */
  datatype Flight = Flight(addr: uint32, len: nat, buffer: uint32) {
    /** Neither range wraps around the address space. */
    predicate InRange() { addr + len <= U32 && buffer + len <= U32 }
  }

  class Chip {
    var ram: Bytes
    var flash: Bytes
    var flight: Option<Flight>
    var seen: seq<set<byte>>     // values each in-flight buffer byte has had since launch
    var calls: seq<Call>
    ghost var tests: seq<Call>   // the self tests among them, which RunTest alone adds

    ghost predicate Valid()
      reads this
    {
      && |ram| == U32 && |flash| == U32 && Bracketed(calls)
      && (flight.Some? && flight.value.InRange() ==>
            var f := flight.value;
            && |seen| == f.len
            && forall i :: 0 <= i < f.len ==> ram[f.buffer + i] in seen[i])
    }

    constructor (ram: Bytes, flash: Bytes)
      requires |ram| == U32 && |flash| == U32
      ensures Valid() && flight.None? && calls == [] && tests == [] && this.flash == flash
    {
      this.ram, this.flash, flight, seen, calls, tests := ram, flash, None, [], [], [];
    }

    /** Record a call that leaves the memories alone. */
    method Note(c: Call)
      requires Valid() && !c.SelfTestCall? && (NeededMode(c).Some? ==> OpenMode(calls) == NeededMode(c))
      modifies `calls
      ensures Valid() && calls == old(calls) + [c]
      ensures OpenMode(calls) == (if c.InitCall? && c.ok then Some(c.mode) else if Ends(c) then None
                else OpenMode(old(calls)))
    {
      BracketedExtends(calls, c);
      calls := calls + [c];
    }

    /** Run a self test, which may do anything to the flash. */
    method RunTest(id: nat, value: nat)
      requires Valid()
      modifies `calls, `tests, `flash
      ensures Valid() && calls == old(calls) + [SelfTestCall(id, value)] && OpenMode(calls) == OpenMode(old(calls))
      ensures tests == old(tests) + [SelfTestCall(id, value)]
    {
      BracketedExtends(calls, SelfTestCall(id, value));
      calls, tests := calls + [SelfTestCall(id, value)], tests + [SelfTestCall(id, value)];
      RewriteFlash();
    }

    /** An erase call: it blanks its range, or fails and leaves the flash in any state. */
    method EraseRange(c: Call, lo: nat, hi: nat, faithful: bool) returns (ok: bool)
      requires Valid() && NeededMode(c) == Some(EraseMode) && OpenMode(calls) == Some(EraseMode)
      modifies `calls, `flash
      ensures Valid() && calls == old(calls) + [c] && OpenMode(calls) == Some(EraseMode)
      ensures ok ==> flash == Erased(old(flash), lo, hi)
      ensures faithful ==> ok
    {
      ok := *;
      ok := ok || faithful;
      BracketedExtends(calls, c);
      calls := calls + [c];
      if ok {
        flash := Erased(flash, lo, hi);
      } else {
        RewriteFlash();
      }
    }

    /** Code on the target may leave the flash in any state. */
    method RewriteFlash()
      requires Valid()
      modifies `flash
      ensures Valid()
    {
      assert |flash| == U32;
      var any: Bytes :| |any| == U32;
      flash := any;
    }

    /**
     * A write to RAM; one that fails may have stored a prefix. Bytes of an in-flight buffer
     * that it changes may be read either way.
     */
    method WriteRam(addr: uint32, data: Bytes, faithful: bool) returns (ok: bool, ghost stored: Bytes)
      requires Valid()
      modifies `ram, `seen
      ensures Valid() && stored <= data && ram == Poke(old(ram), addr, stored)
      ensures (ok ==> stored == data) && (faithful ==> ok)
      ensures flight.Some? && flight.value.InRange() ==>
                && |seen| == |old(seen)|
                && forall i :: 0 <= i < |seen| ==> seen[i] == old(seen)[i] + {ram[flight.value.buffer + i]}
    {
      ok := *;
      ok := ok || faithful;
      var n: nat := if ok then |data| else 0;
      if !ok {
        var some: nat :| some <= |data|;
        n := some;
      }
      stored := data[..n];
      ram := Poke(ram, addr, data[..n]);
      if flight.Some? && flight.value.InRange() {
        var f, old' := flight.value, seen;
        var now := ram[f.buffer..f.buffer + f.len];
        seen := seq(f.len, i requires 0 <= i < f.len && |old'| == f.len == |now| => old'[i] + {now[i]});
      }
    }

    /** Start ProgramPage. The driver has no queue: nothing may be in flight. */
    method Launch(addr: uint32, len: nat, buffer: uint32, faithful: bool) returns (ok: bool)
      requires Valid() && flight.None? && OpenMode(calls) == Some(ProgramMode)
      modifies `flight, `seen, `calls
      ensures Valid() && OpenMode(calls) == Some(ProgramMode)
      ensures calls == old(calls) + [ProgramCall(addr, len)]
      ensures ok ==> flight == Some(Flight(addr, len, buffer))
      ensures ok && flight.value.InRange() ==>
                |seen| == len && forall i :: 0 <= i < len ==> seen[i] == {ram[buffer + i]}
      ensures (!ok ==> flight.None?) && (faithful ==> ok)
    {
      ok := *;
      ok := ok || faithful;
      BracketedExtends(calls, ProgramCall(addr, len));
      calls := calls + [ProgramCall(addr, len)];
      if ok {
        flight := Some(Flight(addr, len, buffer));
        if flight.value.InRange() {
          var now := ram[buffer..buffer + len];
          seen := seq(len, i requires 0 <= i < len && |now| == len => {now[i]});
        }
      }
    }

    /**
     * Wait for the call in flight: each byte programmed is one its buffer held meanwhile. A call
     * whose addresses wrap around may leave any flash.
     */
    method Wait(faithful: bool) returns (ok: bool, ghost page: Bytes)
      requires Valid()
      modifies `flash, `flight
      ensures Valid() && flight.None? && (faithful ==> ok)
      ensures old(flight).None? ==> flash == old(flash)
      ensures old(flight).Some? && old(flight).value.InRange() ==>
                var f := old(flight).value;
                && |page| == f.len && (forall i :: 0 <= i < f.len ==> page[i] in seen[i])
                && flash == Nor(old(flash), f.addr, page)
    {
      ok, page := *, [];
      ok := ok || faithful;
      if flight.Some? && !flight.value.InRange() {
        RewriteFlash();
      } else if flight.Some? {
        var f := flight.value;
        var read := ram[f.buffer..f.buffer + f.len];
        assert |read| == f.len && forall i :: 0 <= i < f.len ==> read[i] in seen[i];
        var picked: Bytes :| |picked| == f.len && forall i :: 0 <= i < f.len ==> picked[i] in seen[i];
        flash, page := Nor(flash, f.addr, picked), picked;
      }
      flight := None;
    }
  }
}
