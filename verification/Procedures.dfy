/**
 * Pre- and post-program procedures (main/prog/procedure_executor.cpp) over the register access
 * each backend offers.
 */
module Procedures {
  import opened Base
  import opened Jobs

  /**
   * The backend a procedure runs on. Before detect the serial one is closed; after SELF_TEST it
   * is still open, but the target has been reset and may be running its firmware.
   */
  datatype Link = Swd | SerialClosed | SerialReset

  datatype Access = Got(addr: uint32, value: bv32) | Put(addr: uint32, value: bv32)

  /** A step that was tried: its result and the register accesses it completed. */
  datatype Ran = Ran(op: Op, result: Err, accesses: seq<Access>)

  /** The operations a link can carry out at all. */
  predicate Supported(op: Op, link: Link) {
    match op
    case Delay(_) => true
    case ResetTarget => true
    case NoOp => false
    case SwdReinit => link.Swd?
    case HaltTarget => link.Swd?
    case WaitHalt => link.Swd?
    case _ => !link.SerialClosed?
  }

  /** No step that counts asks for more than the link can do. */
  predicate Runnable(steps: seq<Step>, link: Link) {
    forall i :: 0 <= i < |steps| ==> steps[i].ignoreError || Supported(steps[i].op, link)
  }

  /** The operations a faithful target cannot fail: a poll waits for a value of the target's choosing. */
  predicate Certain(op: Op, link: Link) {
    match op
    case Delay(_) => true
    case ResetTarget => true
    case NoOp => false
    case Poll32(_, _, _, _) => false
    case _ => link.Swd?
  }

  predicate AllCertain(steps: seq<Step>, link: Link) {
    forall i :: 0 <= i < |steps| ==> steps[i].ignoreError || Certain(steps[i].op, link)
  }

  /** The value a poll waits for. */
  predicate Matches(value: bv32, mask: bv32, expected: bv32) {
    value & mask == expected
  }

  function Modified(value: bv32, mask: bv32, data: bv32): bv32 {
    (value & mask) | data
  }

  /** Every bit of the data is set; of the others exactly those under the mask are kept. */
  lemma ModifiedBits(value: bv32, mask: bv32, data: bv32)
    ensures Modified(value, mask, data) & data == data
    ensures Modified(value, mask, data) & !data == value & mask & !data
  {
  }

  /** The register accesses of a step that succeeded. */
  predicate Performed(op: Op, a: seq<Access>) {
    match op
    case Read32(addr) => |a| == 1 && a[0].Got? && a[0].addr == addr
    case Write32(addr, data) => a == [Put(addr, data)]
    case ReadModWrite32(addr, mask, data) =>
      && |a| == 2 && a[0].Got? && a[0].addr == addr
      && a[1] == Put(addr, Modified(a[0].value, mask, data))
    case Poll32(addr, mask, expected, _) =>
      && |a| > 0 && (forall k :: 0 <= k < |a| ==> a[k].Got? && a[k].addr == addr)
      && (forall k :: 0 <= k < |a| ==> (Matches(a[k].value, mask, expected) <==> k == |a| - 1))
    case _ => a == []
  }

  /** These are the first steps of a procedure, and they let it go on. */
  predicate Carried(steps: seq<Step>, ran: seq<Ran>) {
    |ran| <= |steps| && forall i :: 0 <= i < |ran| ==> Passed(steps[i], ran[i])
  }

  predicate Passed(step: Step, ran: Ran) {
    && ran.op == step.op && (ran.result == Ok || step.ignoreError)
    && (ran.result == Ok ==> Performed(step.op, ran.accesses))
  }

  class Port {
    var log: seq<Access>       // completed register accesses
    var history: seq<Ran>      // steps tried
    var now: nat               // microseconds

    constructor ()
      ensures log == [] && history == []
    {
      log, history, now := [], [], 0;
    }

    method Read(link: Link, addr: uint32, faithful: bool) returns (r: Err, value: bv32)
      modifies `log
      ensures r == Ok ==> !link.SerialClosed? && log == old(log) + [Got(addr, value)]
      ensures r != Ok ==> log == old(log) && r != Timeout
      ensures faithful && link.Swd? ==> r == Ok
    {
      value := *;
      if link.SerialClosed? {
        return InvalidState, 0;
      }
      var ok: bool := *;
      if !ok && !(faithful && link.Swd?) {
        return Fail, 0;
      }
      log, r := log + [Got(addr, value)], Ok;
    }

    method Write(link: Link, addr: uint32, value: bv32, faithful: bool) returns (r: Err)
      modifies `log
      ensures r == Ok ==> !link.SerialClosed? && log == old(log) + [Put(addr, value)]
      ensures r != Ok ==> log == old(log)
      ensures faithful && link.Swd? ==> r == Ok
    {
      if link.SerialClosed? {
        return InvalidState;
      }
      var ok: bool := *;
      if !ok && !(faithful && link.Swd?) {
        return Fail;
      }
      log, r := log + [Put(addr, value)], Ok;
    }

    /**
     * One register is read and written back with the bits outside the mask cleared and the data
     * or-ed in; nothing else is written.
     */
    method ReadModWrite(link: Link, addr: uint32, mask: bv32, data: bv32, faithful: bool) returns (r: Err)
      modifies `log
      ensures old(log) <= log
      ensures r == Ok ==> !link.SerialClosed?
      ensures r == Ok ==> Performed(ReadModWrite32(addr, mask, data), log[|old(log)|..])
      ensures r != Ok ==> |log| <= |old(log)| + 1 && (forall k :: |old(log)| <= k < |log| ==> log[k].Got?)
      ensures faithful && link.Swd? ==> r == Ok
    {
      var value;
      r, value := Read(link, addr, faithful);
      if r == Ok {
        r := Write(link, addr, Modified(value, mask, data), faithful);
      }
    }

    /**
     * Polling only reads, stops at the first match, and gives up no earlier than the deadline
     * and only after a read that did not match.
     */
    method Poll(link: Link, addr: uint32, mask: bv32, expected: bv32, timeoutMs: uint32) returns (r: Err)
      modifies `log, `now
      ensures old(log) <= log
      ensures forall k :: |old(log)| <= k < |log| ==> log[k].Got? && log[k].addr == addr
      ensures forall k :: |old(log)| <= k < |log| - 1 ==> !Matches(log[k].value, mask, expected)
      ensures r == Ok <==> |log| > |old(log)| && Matches(log[|log| - 1].value, mask, expected)
      ensures r == Timeout ==> |log| > |old(log)| && now >= old(now) + timeoutMs * 1000
      ensures r == Ok ==> !link.SerialClosed?
    {
      var deadline := now + timeoutMs * 1000;
      while true
        invariant old(log) <= log
        invariant forall k :: |old(log)| <= k < |log| ==>
                    log[k].Got? && log[k].addr == addr && !Matches(log[k].value, mask, expected)
        decreases deadline - now
      {
        var value;
        r, value := Read(link, addr, false);
        if r != Ok {
          return;
        }
        if Matches(value, mask, expected) {
          return Ok;
        }
        if now >= deadline {
          return Timeout;
        }
        var later: nat :| now < later;
        now := later;
      }
    }

    method Dispatch(op: Op, link: Link, faithful: bool) returns (r: Err)
      modifies `log, `now
      ensures old(log) <= log
      ensures r == Ok ==> Supported(op, link) && Performed(op, log[|old(log)|..])
      ensures faithful && Certain(op, link) ==> r == Ok
    {
      var ok: bool := *;
      match op
      case Read32(addr) =>
        var value;
        r, value := Read(link, addr, faithful);
      case Write32(addr, data) => r := Write(link, addr, data, faithful);
      case ReadModWrite32(addr, mask, data) => r := ReadModWrite(link, addr, mask, data, faithful);
      case Poll32(addr, mask, expected, timeoutMs) => r := Poll(link, addr, mask, expected, timeoutMs);
      case Delay(ms) =>
        now := now + ms * 1000;
        r := Ok;
      case ResetTarget => r := if link.SerialClosed? && !ok && !faithful then Fail else Ok;
      case NoOp => r := NotSupported;
      case _ => r := if !link.Swd? then NotSupported else if ok || faithful then Ok else Fail;
    }

    /** One step goes into the history; if it succeeds, its accesses are those of its operation. */
    method ExecOne(op: Op, link: Link, faithful: bool) returns (r: Err)
      modifies this
      ensures |history| == |old(history)| + 1 && old(history) <= history
      ensures var ran := history[|old(history)|];
              ran.op == op && ran.result == r && log == old(log) + ran.accesses
      ensures r == Ok ==> Supported(op, link) && Performed(op, history[|old(history)|].accesses)
      ensures faithful && Certain(op, link) ==> r == Ok
    {
      var from := |log|;
      r := Dispatch(op, link, faithful);
      history := history + [Ran(op, r, log[from..])];
    }

    /**
     * The steps run in order until one fails that may not; OK means that all were tried and none
     * did. A closed serial link cannot pass a procedure that counts on registers or debug access,
     * and on a faithful target it passes every other one.
     */
    method Execute(steps: seq<Step>, link: Link, faithful: bool) returns (r: Err, ghost ran: seq<Ran>)
      modifies this
      ensures history == old(history) + ran && |ran| <= |steps|
      ensures r == Ok ==> |ran| == |steps| && Carried(steps, ran) && Runnable(steps, link)
      ensures r != Ok ==>
                && 0 < |ran| && Carried(steps, ran[..|ran| - 1])
                && ran[|ran| - 1].op == steps[|ran| - 1].op
                && ran[|ran| - 1].result == r && !steps[|ran| - 1].ignoreError
      ensures faithful && AllCertain(steps, link) ==> r == Ok
      ensures faithful && link.SerialClosed? ==> (r == Ok <==> Runnable(steps, link))
    {
      ran := [];
      for i := 0 to |steps|
        invariant |ran| == i && Carried(steps, ran) && history == old(history) + ran
        invariant forall j :: 0 <= j < i ==> steps[j].ignoreError || Supported(steps[j].op, link)
      {
        r := ExecOne(steps[i].op, link, faithful);
        ran := ran + [history[|history| - 1]];
        if r != Ok && !steps[i].ignoreError {
          assert ran[..i] == ran[..|ran| - 1];
          return;
        }
      }
      r := Ok;
    }
  }
}
