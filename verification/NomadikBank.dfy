/** One bank of 32 pins of the Nomadik GPIO controller: its registers, the driver's shadow fields,
    and what each of its interrupt operations does to them. A 32-bit mask is the set of the bit
    positions that are 1, so `|` is union, `&` is intersection and `& ~bit` removes a position. */
module NomadikBank {

  type Mask = set<nat>

  const ALL: Mask := set o | 0 <= o < 32

  /** Registers first, then the fields that the driver keeps in memory. */
  datatype Bank = Bank(
    rimsc: Mask,
    fimsc: Mask,
    rwimsc: Mask,
    fwimsc: Mask,
    slpc: Mask,
    afsla: Mask,
    afslb: Mask,
    dir: Mask,
    dat: Mask,
    pdis: Mask,
    rising: Mask,
    falling: Mask,
    realWake: Mask,
    enabled: Mask,
    pullUp: Mask,
    savedRwimsc: Mask,
    savedFwimsc: Mask,
    savedSlpm: Mask,
    sleepmode: bool,
    hasIoforce: bool)

  const EINVAL := 22

  function Put(w: Mask, o: nat, on: bool): Mask {
    if on then w + {o} else w - {o}
  }

  // ----- the interrupt mask invariant -----

  /** The four mask registers are determined by the driver's fields: a normal interrupt needs its
      edge and to be enabled; a wakeup needs its edge and to be enabled or a real wake source. */
  predicate IrqOk(b: Bank) {
    && b.rimsc == b.rising * b.enabled
    && b.fimsc == b.falling * b.enabled
    && b.rwimsc == b.rising * (b.enabled + b.realWake)
    && b.fwimsc == b.falling * (b.enabled + b.realWake)
  }

  /** In sleep mode a pin's wakeup detection is on (bit 0) exactly while it may wake. */
  predicate SlpcOk(b: Bank) {
    b.sleepmode ==> b.slpc == ALL - (b.enabled + b.realWake)
  }

  // ----- what an operation should do -----

  /** The masks written afresh from the fields. The driver never does this; it is the reference that
      its bit by bit writes are measured against. */
  function Recompute(b: Bank): Bank {
    b.(rimsc := b.rising * b.enabled,
       fimsc := b.falling * b.enabled,
       rwimsc := b.rising * (b.enabled + b.realWake),
       fwimsc := b.falling * (b.enabled + b.realWake))
  }

  function PutSlpc(b: Bank, o: nat, wake: bool): Mask {
    if b.sleepmode then Put(b.slpc, o, !wake) else b.slpc
  }

  /** mask and unmask by intent: `enabled` changes and the registers follow. */
  function MaskUnmask(b: Bank, o: nat, enable: bool): Bank {
    Recompute(b.(enabled := Put(b.enabled, o, enable),
                 slpc := if o in b.realWake then b.slpc else PutSlpc(b, o, enable)))
  }

  function SetWake(b: Bank, o: nat, on: bool): Bank {
    Recompute(b.(realWake := Put(b.realWake, o, on),
                 slpc := if o in b.enabled then b.slpc else PutSlpc(b, o, on)))
  }

  /** The interrupt type asked for; level types are not supported. */
  datatype IrqType = IrqType(rising: bool, falling: bool, high: bool, low: bool)

  function SetType(b: Bank, o: nat, t: IrqType): (Bank, int) {
    if t.high || t.low then (b, -EINVAL)
    else (Recompute(b.(rising := Put(b.rising, o, t.rising), falling := Put(b.falling, o, t.falling))), 0)
  }

  // ----- what the driver writes, edge by edge -----

  datatype Which = Normal | Wake

  /** __nmk_gpio_irq_modify: only the configured edges are written. */
  function Modify(b: Bank, o: nat, which: Which, enable: bool): Bank {
    match which
    case Normal =>
      b.(rimsc := if o in b.rising then Put(b.rimsc, o, enable) else b.rimsc,
         fimsc := if o in b.falling then Put(b.fimsc, o, enable) else b.fimsc)
    case Wake =>
      b.(rwimsc := if o in b.rising then Put(b.rwimsc, o, enable) else b.rwimsc,
         fwimsc := if o in b.falling then Put(b.fwimsc, o, enable) else b.fwimsc)
  }

  /** __nmk_gpio_set_wake. */
  function WriteWake(b: Bank, o: nat, on: bool): Bank {
    Modify(b.(slpc := PutSlpc(b, o, on)), o, Wake, on)
  }

  /** Writing one bit of a mask keeps mask = edge & wanted when `wanted` changes in that bit. */
  lemma WriteFollows(edge: Mask, wanted: Mask, o: nat, on: bool)
    ensures (if o in edge then Put(edge * wanted, o, on) else edge * wanted) == edge * Put(wanted, o, on)
  {
  }

  lemma UnionFollows(a: Mask, b: Mask, o: nat, on: bool)
    ensures Put(a, o, on) + b == if o in b then a + b else Put(a + b, o, on)
    ensures b + Put(a, o, on) == if o in b then b + a else Put(b + a, o, on)
  {
  }

  /** mask and unmask as the driver does them: the wake masks only if the pin is no wake source. */
  function WriteMaskUnmask(b: Bank, o: nat, enable: bool): Bank {
    var b' := Modify(b.(enabled := Put(b.enabled, o, enable)), o, Normal, enable);
    if o in b.realWake then b' else WriteWake(b', o, enable)
  }

  lemma MaskUnmaskFollows(b: Bank, o: nat, enable: bool)
    requires IrqOk(b)
    ensures WriteMaskUnmask(b, o, enable) == MaskUnmask(b, o, enable)
  {
    WriteFollows(b.rising, b.enabled, o, enable);
    WriteFollows(b.falling, b.enabled, o, enable);
    WriteFollows(b.rising, b.enabled + b.realWake, o, enable);
    WriteFollows(b.falling, b.enabled + b.realWake, o, enable);
    UnionFollows(b.enabled, b.realWake, o, enable);
  }

  /** set_wake as the driver does it: an enabled pin can wake already. */
  function WriteSetWake(b: Bank, o: nat, on: bool): Bank {
    (if o in b.enabled then b else WriteWake(b, o, on)).(realWake := Put(b.realWake, o, on))
  }

  lemma SetWakeFollows(b: Bank, o: nat, on: bool)
    requires IrqOk(b)
    ensures WriteSetWake(b, o, on) == SetWake(b, o, on)
  {
    WriteFollows(b.rising, b.enabled + b.realWake, o, on);
    WriteFollows(b.falling, b.enabled + b.realWake, o, on);
    UnionFollows(b.realWake, b.enabled, o, on);
  }

  /** One mask across set_type: its bit is cleared for the old edge and set for the new one. */
  lemma TypeFollows(edge: Mask, wanted: Mask, o: nat, on: bool)
    ensures var cleared := if o in edge then (edge * wanted) - {o} else edge * wanted;
      Put(edge, o, on) * wanted ==
        if o !in wanted then edge * wanted
        else if on then cleared + {o} else cleared
  {
  }

  function ModifyIf(wanted: bool, b: Bank, o: nat, which: Which, enable: bool): Bank {
    if wanted then Modify(b, o, which, enable) else b
  }

  /** The writes of set_type: off with the old edges, on with the new ones. */
  function Retype(b: Bank, o: nat, t: IrqType, wake: bool): Bank {
    var enabled := o in b.enabled;
    var off := ModifyIf(enabled || wake, ModifyIf(enabled, b, o, Normal, false), o, Wake, false);
    var typed := off.(rising := Put(b.rising, o, t.rising), falling := Put(b.falling, o, t.falling));
    ModifyIf(enabled || wake, ModifyIf(enabled, typed, o, Normal, true), o, Wake, true)
  }

  /** set_type with its refusal; `wake` is genirq's own wakeup flag of the interrupt. */
  function WriteSetType(b: Bank, o: nat, t: IrqType, wake: bool): (Bank, int) {
    if t.high || t.low then (b, -EINVAL) else (Retype(b, o, t, wake), 0)
  }

  lemma SetTypeFollows(b: Bank, o: nat, t: IrqType)
    requires IrqOk(b)
    ensures WriteSetType(b, o, t, o in b.realWake) == SetType(b, o, t)
  {
    TypeFollows(b.rising, b.enabled, o, t.rising);
    TypeFollows(b.falling, b.enabled, o, t.falling);
    TypeFollows(b.rising, b.enabled + b.realWake, o, t.rising);
    TypeFollows(b.falling, b.enabled + b.realWake, o, t.falling);
  }

  /** The driver asks genirq whether the pin is a wakeup source. Were that answer ever different
      from the driver's own `real_wake`, set_type on a disabled pin would keep the masks right only
      when it has nothing to write: no new edge, or the edges the pin had before. */
  lemma RetypeNeedsMatchingWakeFlag(b: Bank, o: nat, t: IrqType, wake: bool)
    requires IrqOk(b) && !t.high && !t.low
    ensures IrqOk(Retype(b, o, t, wake)) <==>
      || o in b.enabled
      || wake == (o in b.realWake)
      || (if wake then !t.rising && !t.falling
          else t.rising == (o in b.rising) && t.falling == (o in b.falling))
  {
    SetTypeFollows(b, o, t);
    var r := Retype(b, o, t, wake);
    if o !in b.enabled && wake != (o in b.realWake) {
      assert o in r.rwimsc <==> (if wake then t.rising else o in b.rising);
      assert o in r.fwimsc <==> (if wake then t.falling else o in b.falling);
    }
  }
}
