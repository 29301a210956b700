/** Runs of interrupt operations on a bank, and what suspend and resume make of them. */
module NomadikIrq {
  import opened NomadikBank

  /** One operation of genirq on a pin of the bank. */
  datatype Op =
    | OpMask(pin: nat)
    | OpUnmask(pin: nat)
    | OpSetWake(pin: nat, on: bool)
    | OpSetType(pin: nat, irqType: IrqType)

  /** What the driver writes for an operation, with genirq's wakeup flag equal to `real_wake`. */
  function Apply(b: Bank, op: Op): Bank {
    match op
    case OpMask(o) => WriteMaskUnmask(b, o, false)
    case OpUnmask(o) => WriteMaskUnmask(b, o, true)
    case OpSetWake(o, on) => WriteSetWake(b, o, on)
    case OpSetType(o, t) => WriteSetType(b, o, t, o in b.realWake).0
  }

  function Run(b: Bank, ops: seq<Op>): Bank
    decreases ops
  {
    if ops == [] then b else Run(Apply(b, ops[0]), ops[1..])
  }

  /** The reference: only the fields are kept, and the masks are written afresh from them. */
  function Intended(b: Bank, op: Op): Bank {
    match op
    case OpMask(o) => MaskUnmask(b, o, false)
    case OpUnmask(o) => MaskUnmask(b, o, true)
    case OpSetWake(o, on) => SetWake(b, o, on)
    case OpSetType(o, t) => SetType(b, o, t).0
  }

  function IntendedRun(b: Bank, ops: seq<Op>): Bank
    decreases ops
  {
    if ops == [] then b else IntendedRun(Intended(b, ops[0]), ops[1..])
  }

  predicate OnPins(ops: seq<Op>) {
    forall i | 0 <= i < |ops| :: ops[i].pin < 32
  }

  lemma ApplyIsIntended(b: Bank, op: Op)
    requires IrqOk(b)
    ensures Apply(b, op) == Intended(b, op) && IrqOk(Apply(b, op))
  {
    match op
    case OpMask(o) => MaskUnmaskFollows(b, o, false);
    case OpUnmask(o) => MaskUnmaskFollows(b, o, true);
    case OpSetWake(o, on) => SetWakeFollows(b, o, on);
    case OpSetType(o, t) => SetTypeFollows(b, o, t);
  }

  lemma ApplyKeepsSlpc(b: Bank, op: Op)
    requires SlpcOk(b) && op.pin < 32
    ensures SlpcOk(Apply(b, op))
  {
    if b.sleepmode {
      var c := Apply(b, op);
      forall o ensures o in c.slpc <==> o in ALL - (c.enabled + c.realWake) {
      }
    }
  }

  /** For any sequence of operations on any pins, the driver's bit by bit writes leave the four masks
      and the sleep register as its fields say, and the whole bank as if the masks had been written
      afresh each time. */
  lemma {:induction false} RunKeepsMasks(b: Bank, ops: seq<Op>)
    requires IrqOk(b) && OnPins(ops)
    ensures IrqOk(Run(b, ops))
    ensures Run(b, ops) == IntendedRun(b, ops)
    ensures SlpcOk(b) ==> SlpcOk(Run(b, ops))
    decreases ops
  {
    if ops != [] {
      ApplyIsIntended(b, ops[0]);
      if SlpcOk(b) {
        ApplyKeepsSlpc(b, ops[0]);
      }
      RunKeepsMasks(Apply(b, ops[0]), ops[1..]);
    }
  }

  /** The bits of one pin in all the registers and fields that interrupts use. */
  predicate SamePin(b: Bank, c: Bank, o: nat) {
    && (o in b.rimsc <==> o in c.rimsc) && (o in b.fimsc <==> o in c.fimsc)
    && (o in b.rwimsc <==> o in c.rwimsc) && (o in b.fwimsc <==> o in c.fwimsc)
    && (o in b.slpc <==> o in c.slpc)
    && (o in b.rising <==> o in c.rising) && (o in b.falling <==> o in c.falling)
    && (o in b.realWake <==> o in c.realWake) && (o in b.enabled <==> o in c.enabled)
  }

  lemma WritesKeepOtherPins(b: Bank, p: nat, which: Which, on: bool, o: nat)
    requires p != o
    ensures SamePin(b, Modify(b, p, which, on), o) && SamePin(b, WriteWake(b, p, on), o)
  {
  }

  lemma ApplyKeepsOtherPins(b: Bank, op: Op, o: nat)
    requires op.pin != o
    ensures SamePin(b, Apply(b, op), o)
  {
    match op
    case OpMask(p) => MaskKeepsOtherPins(b, p, false, o);
    case OpUnmask(p) => MaskKeepsOtherPins(b, p, true, o);
    case OpSetWake(p, on) => WritesKeepOtherPins(b, p, Wake, on, o);
    case OpSetType(p, t) => TypeKeepsOtherPins(b, p, t, o);
  }

  lemma MaskKeepsOtherPins(b: Bank, p: nat, on: bool, o: nat)
    requires p != o
    ensures SamePin(b, WriteMaskUnmask(b, p, on), o)
  {
    var c := b.(enabled := Put(b.enabled, p, on));
    WritesKeepOtherPins(c, p, Normal, on, o);
    WritesKeepOtherPins(Modify(c, p, Normal, on), p, Wake, on, o);
  }

  lemma ModifyIfKeepsOtherPins(wanted: bool, b: Bank, p: nat, which: Which, on: bool, o: nat)
    requires p != o
    ensures SamePin(b, ModifyIf(wanted, b, p, which, on), o)
  {
    WritesKeepOtherPins(b, p, which, on, o);
  }

  lemma EdgesKeepOtherPins(b: Bank, c: Bank, p: nat, t: IrqType, o: nat)
    requires p != o && SamePin(b, c, o)
    ensures SamePin(b, c.(rising := Put(b.rising, p, t.rising), falling := Put(b.falling, p, t.falling)), o)
  {
  }

  lemma SamePinTwice(b: Bank, c: Bank, d: Bank, e: Bank, o: nat)
    requires SamePin(b, c, o) && SamePin(c, d, o) && SamePin(d, e, o)
    ensures SamePin(b, e, o)
  {
  }

  lemma TypeKeepsOtherPins(b: Bank, p: nat, t: IrqType, o: nat)
    requires p != o
    ensures SamePin(b, WriteSetType(b, p, t, p in b.realWake).0, o)
  {
    var enabled, wake := p in b.enabled, p in b.enabled || p in b.realWake;
    var b1 := ModifyIf(enabled, b, p, Normal, false);
    var b2 := ModifyIf(wake, b1, p, Wake, false);
    var b3 := b2.(rising := Put(b.rising, p, t.rising), falling := Put(b.falling, p, t.falling));
    var b4 := ModifyIf(enabled, b3, p, Normal, true);
    ModifyIfKeepsOtherPins(enabled, b, p, Normal, false, o);
    ModifyIfKeepsOtherPins(wake, b1, p, Wake, false, o);
    SamePinTwice(b, b1, b2, b2, o);
    EdgesKeepOtherPins(b, b2, p, t, o);
    ModifyIfKeepsOtherPins(enabled, b3, p, Normal, true, o);
    ModifyIfKeepsOtherPins(wake, b4, p, Wake, true, o);
    SamePinTwice(b, b3, b4, ModifyIf(wake, b4, p, Wake, true), o);
  }

  /** Operations on other pins never touch a pin's bits, whatever state the bank is in. */
  lemma {:induction false} RunKeepsOtherPins(b: Bank, ops: seq<Op>, o: nat)
    requires forall i | 0 <= i < |ops| :: ops[i].pin != o
    ensures SamePin(b, Run(b, ops), o)
    decreases ops
  {
    if ops != [] {
      ApplyKeepsOtherPins(b, ops[0], o);
      RunKeepsOtherPins(Apply(b, ops[0]), ops[1..], o);
    }
  }

  // ----- the history of one pin -----

  /** Whether pin `o` is unmasked after `ops`, given whether it was before: the last mask or unmask
      of that pin decides, whatever happened in between. */
  function Unmasked(ops: seq<Op>, o: nat, before: bool): bool
    decreases ops
  {
    if ops == [] then before
    else
      var last := ops[|ops| - 1];
      if last == OpMask(o) then false
      else if last == OpUnmask(o) then true
      else Unmasked(ops[..|ops| - 1], o, before)
  }

  function WakeSet(ops: seq<Op>, o: nat, before: bool): bool
    decreases ops
  {
    if ops == [] then before
    else
      var last := ops[|ops| - 1];
      if last.OpSetWake? && last.pin == o then last.on else WakeSet(ops[..|ops| - 1], o, before)
  }

  /** The rising edge asked for last; refused types do not count. */
  function RisingSet(ops: seq<Op>, o: nat, before: bool): bool
    decreases ops
  {
    if ops == [] then before
    else
      var last := ops[|ops| - 1];
      if last.OpSetType? && last.pin == o && !last.irqType.high && !last.irqType.low
      then last.irqType.rising else RisingSet(ops[..|ops| - 1], o, before)
  }

  function FallingSet(ops: seq<Op>, o: nat, before: bool): bool
    decreases ops
  {
    if ops == [] then before
    else
      var last := ops[|ops| - 1];
      if last.OpSetType? && last.pin == o && !last.irqType.high && !last.irqType.low
      then last.irqType.falling else FallingSet(ops[..|ops| - 1], o, before)
  }

  lemma {:induction false} RunSnoc(b: Bank, ops: seq<Op>, op: Op)
    ensures Run(b, ops + [op]) == Apply(Run(b, ops), op)
    decreases ops
  {
    if ops == [] {
      assert [op][1..] == [];
    } else {
      assert (ops + [op])[1..] == ops[1..] + [op];
      RunSnoc(Apply(b, ops[0]), ops[1..], op);
    }
  }

  /** The fields that an operation changes. */
  lemma ApplyToFields(b: Bank, op: Op)
    ensures var c := Apply(b, op);
      && c.enabled == (match op
                       case OpMask(o) => Put(b.enabled, o, false)
                       case OpUnmask(o) => Put(b.enabled, o, true)
                       case _ => b.enabled)
      && c.realWake == (if op.OpSetWake? then Put(b.realWake, op.pin, op.on) else b.realWake)
      && c.sleepmode == b.sleepmode
  {
  }

  lemma ApplyToEdges(b: Bank, op: Op)
    ensures var c := Apply(b, op);
      var typed := op.OpSetType? && !op.irqType.high && !op.irqType.low;
      && c.rising == (if typed then Put(b.rising, op.pin, op.irqType.rising) else b.rising)
      && c.falling == (if typed then Put(b.falling, op.pin, op.irqType.falling) else b.falling)
  {
  }

  lemma {:induction false} FieldsFollowHistory(b: Bank, ops: seq<Op>, o: nat)
    requires OnPins(ops)
    ensures o in Run(b, ops).enabled <==> Unmasked(ops, o, o in b.enabled)
    ensures o in Run(b, ops).realWake <==> WakeSet(ops, o, o in b.realWake)
    ensures o in Run(b, ops).rising <==> RisingSet(ops, o, o in b.rising)
    ensures o in Run(b, ops).falling <==> FallingSet(ops, o, o in b.falling)
    decreases |ops|
  {
    if ops != [] {
      var init, last := ops[..|ops| - 1], ops[|ops| - 1];
      assert ops == init + [last];
      RunSnoc(b, init, last);
      FieldsFollowHistory(b, init, o);
      ApplyToFields(Run(b, init), last);
      ApplyToEdges(Run(b, init), last);
    }
  }

  /** What the hardware sees of a pin depends only on the latest operation of each kind on that
      pin: an interrupt needs its edge and to be unmasked, a wakeup its edge and to be unmasked or a
      wake source. */
  lemma MasksFollowHistory(b: Bank, ops: seq<Op>, o: nat)
    requires IrqOk(b) && OnPins(ops)
    ensures var r := Run(b, ops);
      var rise, fall := RisingSet(ops, o, o in b.rising), FallingSet(ops, o, o in b.falling);
      var on, wake := Unmasked(ops, o, o in b.enabled), WakeSet(ops, o, o in b.realWake);
      && (o in r.rimsc <==> rise && on) && (o in r.fimsc <==> fall && on)
      && (o in r.rwimsc <==> rise && (on || wake)) && (o in r.fwimsc <==> fall && (on || wake))
  {
    RunKeepsMasks(b, ops);
    FieldsFollowHistory(b, ops, o);
  }

  // ----- suspend and resume -----

  function SuspendBank(b: Bank): Bank {
    var c := b.(savedRwimsc := b.rwimsc, savedFwimsc := b.fwimsc,
                rwimsc := b.rwimsc * b.realWake, fwimsc := b.fwimsc * b.realWake);
    if b.sleepmode then c.(savedSlpm := b.slpc, slpc := ALL - b.realWake) else c
  }

  function ResumeBank(b: Bank): Bank {
    var c := b.(rwimsc := b.savedRwimsc, fwimsc := b.savedFwimsc);
    if b.sleepmode then c.(slpc := b.savedSlpm) else c
  }

  /** While suspended, a pin wakes the system exactly if it has the edge and is a real wake source,
      however often it was masked and unmasked before. */
  lemma SuspendLeavesRealWakeSources(b: Bank, ops: seq<Op>, o: nat)
    requires IrqOk(b) && OnPins(ops)
    ensures var s := SuspendBank(Run(b, ops));
      var rise, fall := RisingSet(ops, o, o in b.rising), FallingSet(ops, o, o in b.falling);
      var wake := WakeSet(ops, o, o in b.realWake);
      && (o in s.rwimsc <==> rise && wake) && (o in s.fwimsc <==> fall && wake)
      && (o < 32 && b.sleepmode ==> (o !in s.slpc <==> wake))
  {
    MasksFollowHistory(b, ops, o);
    FieldsFollowHistory(b, ops, o);
    SleepmodeStays(b, ops);
  }

  lemma {:induction false} SleepmodeStays(b: Bank, ops: seq<Op>)
    ensures Run(b, ops).sleepmode == b.sleepmode
    decreases ops
  {
    if ops != [] {
      ApplyToFields(b, ops[0]);
      SleepmodeStays(Apply(b, ops[0]), ops[1..]);
    }
  }

  /** Resume undoes suspend in every register, so the mask invariant holds again. */
  lemma ResumeUndoesSuspend(b: Bank)
    ensures var r := ResumeBank(SuspendBank(b));
      r == b.(savedRwimsc := r.savedRwimsc, savedFwimsc := r.savedFwimsc, savedSlpm := r.savedSlpm)
    ensures IrqOk(b) ==> IrqOk(ResumeBank(SuspendBank(b)))
    ensures SlpcOk(b) ==> SlpcOk(ResumeBank(SuspendBank(b)))
  {
  }
}
