/**
 * Target and USB plug detection (main/bootstrap_fsm.cpp): level interrupts that mask
 * themselves, a one-shot debounce timer whose commands are queued, and the handler that
 * re-arms the pins. The interrupt handler and the timer task may run on two cores, so every
 * register access, flag update and event-group call is a step of its own.
 */
module PlugDetect {
  import opened Base

  /** A pin, the level last recorded for it, and its interrupt: enabled or not, and for which level. */
  datatype Pin = Pin(level: bool, recorded: bool, enabled: bool, waits: bool)

  datatype IsrPc = Away | MaskDet | MaskPlug | StartTimer

  /** The interrupt handler, and the timer with its command queue. */
  datatype Irq = Irq(at: IsrPc, queued: nat, ticking: bool)

  datatype HandlerPc =
    | Idle
    | DetRead(det: bool) | DetSignal | DetSelect | DetEnable
    | PlugSample | PlugRead(plug: bool) | PlugLock | PlugSelect | PlugEnable

  /** BIT_TARGET_CONNECTED, and what became of the connect edges. */
  datatype Edges = Edges(
    bit: bool,
    recorded: nat,             // connect edges the handler recorded
    taken: nat,                // bits the programming task has taken
    withdrawn: nat)            // bits a disconnect cleared before they were taken

  /** locks counts the acquisitions of usb_pm_lock not yet released. */
  datatype State = State(hasPlug: bool, det: Pin, plug: Pin, irq: Irq, pc: HandlerPc, edges: Edges, locks: int)

  datatype Label =
    | DetLevel(high: bool) | PlugLevel(high: bool) | DetFires | PlugFires | Isr(fits: bool)
    | Command | Expire | Handler | Take

  predicate Fires(s: State, p: Pin) {
    s.irq.at.Away? && p.enabled && p.level == p.waits
  }

  /** The ignored result of xTimerStartFromISR decides whether the command is queued. */
  function ExecIsr(s: State, fits: bool): State
    requires !s.irq.at.Away?
  {
    match s.irq.at
    case MaskDet => s.(det := s.det.(enabled := false), irq := s.irq.(at := if s.hasPlug then MaskPlug else StartTimer))
    case MaskPlug => s.(plug := s.plug.(enabled := false), irq := s.irq.(at := StartTimer))
    case StartTimer =>
      s.(irq := s.irq.(queued := s.irq.queued + if fits then 1 else 0, at := Away))
  }

  function Signal(e: Edges, disconnected: bool): Edges {
    if disconnected then e.(bit := false, withdrawn := e.withdrawn + if e.bit then 1 else 0) else e.(bit := true)
  }

  /**
   * Without a plug pin the handler, like the interrupt, skips that half. Once a level has been
   * recorded it is the handler's own copy too, since nobody else records levels.
   */
  function ExecHandler(s: State): State
    requires !s.pc.Idle?
  {
    match s.pc
    case DetRead(seen) =>
      if seen == s.det.recorded then s.(pc := DetSelect)
      else s.(det := s.det.(recorded := seen), pc := DetSignal,
          edges := s.edges.(recorded := s.edges.recorded + if seen then 0 else 1))
    case DetSignal => s.(edges := Signal(s.edges, s.det.recorded), pc := DetSelect)
    case DetSelect => s.(det := s.det.(waits := !s.det.recorded), pc := DetEnable)
    case DetEnable => s.(det := s.det.(enabled := true), pc := if s.hasPlug then PlugSample else Idle)
    case PlugSample => s.(pc := PlugRead(s.plug.level))
    case PlugRead(seen) =>
      if seen == s.plug.recorded then s.(pc := PlugSelect) else s.(plug := s.plug.(recorded := seen), pc := PlugLock)
    case PlugLock => s.(locks := s.locks + (if s.plug.recorded then 1 else -1), pc := PlugSelect)
    case PlugSelect => s.(plug := s.plug.(waits := !s.plug.recorded), pc := PlugEnable)
    case PlugEnable => s.(plug := s.plug.(enabled := true), pc := Idle)
  }

  /** The timer task serves commands and expiries only between two handler calls. */
  function Exec(s: State, l: Label): Option<State> {
    match l
    case DetLevel(high) => Some(s.(det := s.det.(level := high)))
    case PlugLevel(high) => Some(s.(plug := s.plug.(level := high)))
    case DetFires => if Fires(s, s.det) then Some(s.(irq := s.irq.(at := MaskDet))) else None
    case PlugFires => if s.hasPlug && Fires(s, s.plug) then Some(s.(irq := s.irq.(at := MaskDet))) else None
    case Isr(fits) => if s.irq.at.Away? then None else Some(ExecIsr(s, fits))
    case Command =>
      if !s.pc.Idle? || s.irq.queued == 0 then None
      else Some(s.(irq := s.irq.(queued := s.irq.queued - 1, ticking := true)))
    case Expire =>
      if !s.pc.Idle? || !s.irq.ticking then None
      else Some(s.(irq := s.irq.(ticking := false), pc := DetRead(s.det.level)))
    case Handler => if s.pc.Idle? then None else Some(ExecHandler(s))
    case Take => if s.edges.bit then Some(s.(edges := s.edges.(bit := false, taken := s.edges.taken + 1))) else None
  }

  /** After initialisation: the present pins are armed, and the levels may have moved on since. */
  predicate Initial(s: State) {
    && Armed(s.det) && (s.hasPlug ==> Armed(s.plug))
    && s.irq == Irq(Away, 0, false) && s.pc.Idle?
    && s.edges == Edges(s.edges.bit, if s.edges.bit then 1 else 0, 0, 0) && (s.edges.bit ==> !s.det.recorded)
    && s.locks == (if !s.hasPlug || s.plug.recorded then 1 else 0)
  }

  ghost predicate Behavior(b: seq<State>, ls: seq<Label>) {
    && |b| == |ls| + 1 && Initial(b[0])
    && forall i :: 0 <= i < |ls| ==> Exec(b[i], ls[i]) == Some(b[i + 1])
  }

  // ---- invariants --------------------------------------------------------

  /** Waiting for the opposite of the recorded level. */
  predicate Armed(p: Pin) { p.enabled && p.waits == !p.recorded }

  /** A debounce is on its way: the interrupt handler is at work, or the timer has been told. */
  predicate Pending(q: Irq) { !q.at.Away? || q.queued > 0 || q.ticking }

  predicate InDet(pc: HandlerPc) { pc.DetRead? || pc.DetSignal? || pc.DetSelect? || pc.DetEnable? }

  /** Armed, or a debounce is on its way, or the running handler call will still arm the pin. */
  predicate DetCovered(s: State) { Armed(s.det) || Pending(s.irq) || InDet(s.pc) }

  predicate PlugCovered(s: State) { Armed(s.plug) || Pending(s.irq) || !s.pc.Idle? }

  predicate Covered(s: State) { DetCovered(s) && (s.hasPlug ==> PlugCovered(s)) }

  /**
   * A pin waits for the opposite of its recorded level, save while the handler is changing both; an
   * absent pin is left alone.
   */
  predicate HandlerInv(s: State) {
    && (s.pc.DetSignal? || s.pc.DetSelect? || s.det.waits == !s.det.recorded)
    && (s.pc.PlugLock? || s.pc.PlugSelect? || !s.hasPlug || s.plug.waits == !s.plug.recorded)
    && (s.irq.at.MaskPlug? || (!s.pc.Idle? && !InDet(s.pc)) ==> s.hasPlug)
  }

  /** A connect edge lives in the handler about to signal it, then in the bit, until it is taken or withdrawn. */
  predicate EdgeInv(e: Edges, signalling: bool, disconnected: bool) {
    && (e.bit ==> signalling == disconnected)
    && e.recorded == e.taken + e.withdrawn + (if e.bit then 1 else 0) + (if signalling && !disconnected then 1 else 0)
  }

  predicate LockInv(s: State) {
    s.locks == if !s.hasPlug || s.plug.recorded != s.pc.PlugLock? then 1 else 0
  }

  predicate Inv(s: State) {
    HandlerInv(s) && EdgeInv(s.edges, s.pc.DetSignal?, s.det.recorded) && LockInv(s)
  }

  lemma InvStep(s: State, l: Label)
    requires Inv(s) && Exec(s, l).Some?
    ensures Inv(Exec(s, l).value)
  {
    if l.Isr? {
      IsrKeeps(s, l.fits);
    } else if l.Handler? {
      HandlerKeeps(s);
    }
  }

  lemma IsrKeeps(s: State, fits: bool)
    requires Inv(s) && !s.irq.at.Away?
    ensures Inv(ExecIsr(s, fits))
  {
  }

  lemma HandlerKeeps(s: State)
    requires Inv(s) && !s.pc.Idle?
    ensures Inv(ExecHandler(s))
  {
    if s.pc.DetRead? || s.pc.DetSignal? {
      SignalKeeps(s);
    } else if InDet(s.pc) {
      DetArmKeeps(s);
    } else {
      PlugKeeps(s);
    }
  }

  lemma SignalKeeps(s: State)
    requires Inv(s) && (s.pc.DetRead? || s.pc.DetSignal?)
    ensures Inv(ExecHandler(s))
  {
  }

  lemma DetArmKeeps(s: State)
    requires Inv(s) && (s.pc.DetSelect? || s.pc.DetEnable?)
    ensures Inv(ExecHandler(s))
  {
  }

  lemma PlugKeeps(s: State)
    requires Inv(s) && !s.pc.Idle? && !InDet(s.pc)
    ensures Inv(ExecHandler(s))
  {
  }

  lemma {:induction false} Reachable(b: seq<State>, ls: seq<Label>, i: nat)
    requires Behavior(b, ls) && i < |b|
    ensures Inv(b[i])
  {
    if i > 0 {
      Reachable(b, ls, i - 1);
      assert Exec(b[i - 1], ls[i - 1]) == Some(b[i]);
      InvStep(b[i - 1], ls[i - 1]);
    }
  }

  // ---- what they mean ----------------------------------------------------

  /**
   * The steps that lose a level: a timer start is dropped with none pending, while a pin is
   * masked that the running handler call, if any, will not arm any more.
   */
  predicate Loses(s: State, l: Label) {
    && l == Isr(false) && s.irq.at.StartTimer? && s.irq.queued == 0 && !s.irq.ticking
    && ((!s.det.enabled && !InDet(s.pc)) || (s.hasPlug && !s.plug.enabled && s.pc.Idle?))
  }

  /** Every other step keeps the pins covered, and such a step uncovers one. */
  lemma CoverStep(s: State, l: Label)
    requires HandlerInv(s) && Exec(s, l).Some?
    ensures Loses(s, l) ==> !Covered(Exec(s, l).value)
    ensures Covered(s) && !Loses(s, l) ==> Covered(Exec(s, l).value)
  {
    if l.Handler? && Covered(s) {
      HandlerCovers(s);
    } else if l.Isr? {
      IsrCovers(s, l.fits);
    }
  }

  lemma HandlerCovers(s: State)
    requires HandlerInv(s) && Covered(s) && !s.pc.Idle?
    ensures Covered(ExecHandler(s))
  {
  }

  lemma IsrCovers(s: State, fits: bool)
    requires HandlerInv(s) && !s.irq.at.Away?
    ensures Loses(s, Isr(fits)) <==> !Covered(ExecIsr(s, fits))
  {
  }

  lemma CoverAt(b: seq<State>, ls: seq<Label>, k: nat)
    requires Behavior(b, ls) && k < |ls|
    ensures Loses(b[k], ls[k]) ==> !Covered(b[k + 1])
    ensures Covered(b[k]) && !Loses(b[k], ls[k]) ==> Covered(b[k + 1])
  {
    Reachable(b, ls, k);
    assert Exec(b[k], ls[k]) == Some(b[k + 1]);
    CoverStep(b[k], ls[k]);
  }

  lemma {:induction false} CoveredSoFar(b: seq<State>, ls: seq<Label>, i: nat)
    requires Behavior(b, ls) && i < |b| && forall k :: 0 <= k < i ==> !Loses(b[k], ls[k])
    ensures Covered(b[i])
  {
    if i > 0 {
      CoveredSoFar(b, ls, i - 1);
      CoverAt(b, ls, i - 1);
    }
  }

  /**
   * Exactly when no level is lost: along every behaviour, each pin is always armed for the
   * opposite of its recorded level, or a debounce is on its way, if and only if no timer start
   * is dropped in a state that Loses describes.
   */
  lemma CoveredIff(b: seq<State>, ls: seq<Label>)
    requires Behavior(b, ls)
    ensures (forall i :: 0 <= i < |b| ==> Covered(b[i])) <==> (forall k :: 0 <= k < |ls| ==> !Loses(b[k], ls[k]))
  {
    if forall i :: 0 <= i < |b| ==> Covered(b[i]) {
      forall k | 0 <= k < |ls|
        ensures !Loses(b[k], ls[k])
      {
        CoverAt(b, ls, k);
        assert Covered(b[k + 1]);
      }
    }
    if forall k :: 0 <= k < |ls| ==> !Loses(b[k], ls[k]) {
      forall i | 0 <= i < |b|
        ensures Covered(b[i])
      {
        CoveredSoFar(b, ls, i);
      }
    }
  }

  /** Someone in the firmware can move. */
  predicate CanMove(s: State) {
    || Exec(s, DetFires).Some? || Exec(s, PlugFires).Some? || Exec(s, Isr(true)).Some?
    || Exec(s, Command).Some? || Exec(s, Expire).Some? || Exec(s, Handler).Some?
  }

  /** As long as no start was lost, the recorded levels are the actual ones whenever nothing can move. */
  lemma NoLostLevel(b: seq<State>, ls: seq<Label>, i: nat)
    requires Behavior(b, ls) && i < |b| && forall k :: 0 <= k < i ==> !Loses(b[k], ls[k])
    ensures Covered(b[i])
    ensures !CanMove(b[i]) ==>
              b[i].det.recorded == b[i].det.level && (b[i].hasPlug ==> b[i].plug.recorded == b[i].plug.level)
  {
    CoveredSoFar(b, ls, i);
  }

  /** The edges counted are exactly the changes of the recorded level to connected. */
  lemma EdgesCounted(s: State, l: Label)
    requires Exec(s, l).Some?
    ensures var s' := Exec(s, l).value;
            s'.edges.recorded == s.edges.recorded + (if s.det.recorded && !s'.det.recorded then 1 else 0)
  {
  }

  /** Connect edges along a behaviour. */
  function ConnectsUpTo(b: seq<State>, i: nat): nat
    requires i < |b|
  {
    if i == 0 then 0 else ConnectsUpTo(b, i - 1) + (if b[i - 1].det.recorded && !b[i].det.recorded then 1 else 0)
  }

  lemma {:induction false} EdgesAreConnects(b: seq<State>, ls: seq<Label>, i: nat)
    requires Behavior(b, ls) && i < |b|
    ensures b[i].edges.recorded == ConnectsUpTo(b, i) + (if b[0].edges.bit then 1 else 0)
  {
    if i > 0 {
      EdgesAreConnects(b, ls, i - 1);
      assert Exec(b[i - 1], ls[i - 1]) == Some(b[i]);
      EdgesCounted(b[i - 1], ls[i - 1]);
    }
  }

  /**
   * A pending connect bit means that the last recorded state is connected, except while a
   * disconnect is about to clear it; and every change of the recorded level to connected, with
   * the one found at boot, was taken once, withdrawn by a disconnect, or is still pending.
   */
  lemma ConnectEdges(b: seq<State>, ls: seq<Label>, i: nat)
    requires Behavior(b, ls) && i < |b|
    ensures var e := b[i].edges;
            && (e.bit ==> !b[i].det.recorded || b[i].pc.DetSignal?)
            && e.taken + e.withdrawn <= e.recorded <= e.taken + e.withdrawn + 1
            && (!b[i].pc.DetSignal? ==> e.recorded == e.taken + e.withdrawn + if e.bit then 1 else 0)
            && e.recorded == ConnectsUpTo(b, i) + (if b[0].edges.bit then 1 else 0)
  {
    Reachable(b, ls, i);
    EdgesAreConnects(b, ls, i);
  }

  /**
   * The lock that forbids light sleep is held exactly while USB power is recorded, and is never
   * released twice; without a plug pin it is always held.
   */
  lemma UsbLock(b: seq<State>, ls: seq<Label>, i: nat)
    requires Behavior(b, ls) && i < |b|
    ensures 0 <= b[i].locks <= 1
    ensures !b[i].pc.PlugLock? ==> (b[i].locks == 1 <==> !b[i].hasPlug || b[i].plug.recorded)
  {
    Reachable(b, ls, i);
  }

  // ---- a full timer queue ------------------------------------------------

  /** Nothing is armed and nothing is pending. */
  predicate Deaf(s: State) {
    !s.det.enabled && (s.hasPlug ==> !s.plug.enabled) && !Pending(s.irq) && s.pc.Idle?
  }

  /** One timer start that is dropped is enough: both pins end up masked with no debounce coming. */
  lemma DroppedStartDeafens(s: State)
    requires Initial(s) && s.det.level != s.det.recorded
    ensures exists b, ls :: Behavior(b, ls) && b[0] == s && Deaf(b[|ls|])
  {
    var ls := [DetFires, Isr(true)] + (if s.hasPlug then [Isr(true)] else []) + [Isr(false)];
    var s1 := s.(irq := s.irq.(at := MaskDet));
    var s2 := ExecIsr(s1, true);
    var s3 := if s.hasPlug then ExecIsr(s2, true) else s2;
    var s4 := ExecIsr(s3, false);
    var b := [s, s1, s2] + (if s.hasPlug then [s3] else []) + [s4];
    assert Behavior(b, ls) && b[0] == s && Deaf(b[|ls|]);
  }

  /** And it stays that way: no later step records a level or arms a pin. */
  lemma {:induction false} DeafForever(b: seq<State>, ls: seq<Label>, i: nat, k: nat)
    requires Behavior(b, ls) && i <= k < |b| && Deaf(b[i])
    ensures Deaf(b[k]) && b[k].det.recorded == b[i].det.recorded && b[k].plug.recorded == b[i].plug.recorded
    ensures b[k].edges.recorded == b[i].edges.recorded
  {
    if k > i {
      DeafForever(b, ls, i, k - 1);
      assert Exec(b[k - 1], ls[k - 1]) == Some(b[k]);
    }
  }
}
