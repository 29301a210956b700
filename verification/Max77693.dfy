/** The MAX77693 charger: its input and charge current registers, the soft start ramp, and the soft
    regulation loop that lowers the input limit while the supply is unstable. */
module Max77693 {

  type Byte = x: nat | x < 0x100

  /** CNFG_02: the charge current code in the low six bits, the OTG limit above them. */
  datatype Cnfg02 = Cnfg02(otg: nat, code: nat)

  /** Registers and soft regulation fields. `charging` is the CHGR bit of CNFG_00; `limit` is
      CNFG_09, the input limit in units of 20 mA. */
  datatype Charger = Charger(
    charging: bool,
    cnfg02: Cnfg02,
    limit: Byte,
    softReg: bool,
    softCurrent: nat,
    softIng: bool)

  const SOFT_CHG_START_CURR := 100
  const SOFT_CHG_CURR_STEP := 100
  const SW_REG_CURR_STEP_MA := 100
  const SW_REG_CURR_MIN_MA := 100

  /** The highest limit that the soft regulation code can read back: it masks with 0x7F. */
  const MAX_LIMIT_MA := 2540

  // ----- currents and codes -----

  function InputMa(c: Charger): nat {
    c.limit * 20
  }

  /** The charge current that a code stands for. */
  function CodeMa(code: nat): nat {
    code * 333 / 10
  }

  function ChargeCode(ma: nat): nat {
    ma * 3 / 100
  }

  lemma CodeMaIsStrictlyMonotone(x: nat, y: nat)
    requires x < y
    ensures CodeMa(x) + 33 <= CodeMa(y)
  {
  }

  lemma CodeMaIsInjective(x: nat, y: nat)
    ensures CodeMa(x) == CodeMa(y) <==> x == y
  {
    if x < y {
      CodeMaIsStrictlyMonotone(x, y);
    } else if y < x {
      CodeMaIsStrictlyMonotone(y, x);
    }
  }

  /** What is programmed is never more than what was asked for, and less by at most 36 mA: the charger
      counts in steps of a third of 100 mA. */
  lemma ProgrammedCurrent(ma: nat)
    requires ma <= 2133
    ensures ChargeCode(ma) < 64
    ensures ma - 36 <= CodeMa(ChargeCode(ma)) <= ma
  {
  }

  // ----- what each operation does -----

  /** max77693_set_input_current, without the ramp: soft regulation overrides the request, except
      that switching off always works and ends soft regulation. */
  function SetInput(c: Charger, ma: nat): Charger {
    if ma == 0 then c.(limit := 0, softReg := false)
    else if c.softReg && InputMa(c) == c.softCurrent then c
    else c.(limit := (if c.softReg then c.softCurrent / 20 else ma / 20) % 0x100)
  }

  /** Bitwise or of two-bit numbers. */
  function Or2(a: nat, b: nat): nat {
    (if a % 2 == 1 || b % 2 == 1 then 1 else 0) + (if a / 2 % 2 == 1 || b / 2 % 2 == 1 then 2 else 0)
  }

  /** max77693_set_charge_current: a code that does not fit six bits spills into the OTG bits. */
  function SetCharge(c: Charger, ma: nat): Charger {
    var v := ChargeCode(ma);
    c.(cnfg02 := Cnfg02(Or2(c.cnfg02.otg, v / 64 % 4), v % 64))
  }

  /** max77693_reduce_input by one step. */
  function Reduce(c: Charger): Charger {
    var now := c.limit % 0x80 * 20;
    if now < SW_REG_CURR_STEP_MA then c.(softCurrent := now)
    else
      var lower := now - SW_REG_CURR_STEP_MA;
      var next := if lower < SW_REG_CURR_MIN_MA then SW_REG_CURR_MIN_MA else lower;
      c.(softCurrent := next, limit := next / 20)
  }

  /** What the status registers say when the soft regulation work runs. */
  datatype Readings = Readings(chgin: nat, chg: nat, byp: nat, vbvolt: nat)

  predicate Unstable(r: Readings) {
    r.chg != 0x8 && (r.byp / 8 % 2 == 1 || (r.chgin != 0x3 && r.vbvolt == 0x1))
  }

  /** Whether the work finds the power unstable, lowers the limit and reschedules itself. */
  predicate Reschedules(c: Charger, r: Readings) {
    c.limit % 0x80 * 20 > SW_REG_CURR_STEP_MA && Unstable(r)
  }

  /** max77693_softreg_work: one more step for margin once the power is stable again. */
  function SoftregWork(c: Charger, r: Readings): Charger {
    if Reschedules(c, r) then Reduce(c.(softIng := true, softReg := true))
    else if c.softIng then Reduce(c).(softIng := false)
    else c
  }

  /** The charger interrupt on an abnormal supply. */
  function AbnormalPower(c: Charger): Charger {
    Reduce(c.(softReg := true))
  }

  /** The cable is found detached. */
  function CableGone(c: Charger): Charger {
    c.(softReg := false)
  }

  // ----- what they do, in mA -----

  /** A step down takes 100 mA off the limit, but not below 100 mA, and remembers the new limit; a limit
      under 100 mA stays. */
  lemma ReduceOutcome(c: Charger)
    requires c.limit < 0x80
    ensures var d := Reduce(c);
      && InputMa(d) == (if InputMa(c) < 100 then InputMa(c) else if InputMa(c) < 200 then 100 else InputMa(c) - 100)
      && d.softCurrent == InputMa(d)
      && d == c.(limit := d.limit, softCurrent := d.softCurrent)
  {
  }

  /** The work lowers the limit and comes back while the power is unstable: the limit is above 100 mA,
      the charger is not off, and either the bypass is limited or the input is not good although there is
      voltage. Once it is stable, one more step is taken if the work had lowered the limit before. */
  lemma SoftregOutcome(c: Charger, r: Readings)
    requires c.limit < 0x80
    ensures var d := SoftregWork(c, r);
      var unstable := c.limit * 20 > 100 && r.chg != 8 && (r.byp / 8 % 2 == 1 || (r.chgin != 3 && r.vbvolt == 1));
      && (Reschedules(c, r) <==> unstable)
      && (unstable ==> d.softReg && d.softIng && InputMa(d) == (if InputMa(c) < 200 then 100 else InputMa(c) - 100)
                       && d.softCurrent == InputMa(d))
      && (!unstable && c.softIng ==> !d.softIng && d.softReg == c.softReg && d.softCurrent == InputMa(d))
      && (!unstable && c.softIng ==>
            InputMa(d) == if InputMa(c) < 100 then InputMa(c) else if InputMa(c) < 200 then 100 else InputMa(c) - 100)
      && (!unstable && !c.softIng ==> d == c)
  {
    ReduceOutcome(c);
    ReduceOutcome(c.(softIng := true, softReg := true));
  }

  /** A charge current that does not fit six bits spills over: the low six bits are replaced, and the two
      above them can only be set. */
  lemma ChargeRegisterOutcome(c: Charger, ma: nat)
    requires c.cnfg02.otg < 4
    ensures var d := SetCharge(c, ma);
      var above := ma * 3 / 100 / 64 % 4;
      && d == c.(cnfg02 := d.cnfg02) && d.cnfg02.code == ma * 3 / 100 % 64 && d.cnfg02.otg < 4
      && (d.cnfg02.otg % 2 == 1 <==> c.cnfg02.otg % 2 == 1 || above % 2 == 1)
      && (d.cnfg02.otg >= 2 <==> c.cnfg02.otg >= 2 || above >= 2)
  {
    TwoBits(c.cnfg02.otg, ma * 3 / 100 / 64 % 4);
  }

  lemma TwoBits(a: nat, b: nat)
    requires a < 4 && b < 4
    ensures Or2(a, b) < 4
    ensures Or2(a, b) % 2 == 1 <==> a % 2 == 1 || b % 2 == 1
    ensures Or2(a, b) >= 2 <==> a >= 2 || b >= 2
  {
  }

  /** A request of 0 switches the input off and ends soft regulation; under soft regulation any other
      request leaves the remembered limit; otherwise it is programmed in steps of 20 mA. */
  lemma RequestOutcome(c: Charger, ma: nat)
    requires SoftOk(c) && ma <= MAX_LIMIT_MA
    ensures var d := SetInput(c, ma);
      && (ma == 0 ==> d.limit == 0 && !d.softReg)
      && (ma != 0 && c.softReg ==> d == c)
      && (ma != 0 && !c.softReg ==> !d.softReg && d.limit == ma / 20)
      && d == c.(limit := d.limit, softReg := d.softReg)
  {
  }

  /** Should the register differ from the remembered limit, a request under soft regulation restores it. */
  lemma RegulationRestoresItsLimit(c: Charger, ma: nat)
    requires c.softReg && ma != 0 && c.softCurrent % 20 == 0 && c.softCurrent < 5120
    ensures var d := SetInput(c, ma);
      InputMa(d) == c.softCurrent && d == c.(limit := d.limit)
  {
  }

  // ----- soft regulation -----

  /** While soft regulation holds, the register is what the driver remembers. */
  predicate SoftOk(c: Charger) {
    c.limit < 0x80 && (c.softReg ==> InputMa(c) == c.softCurrent)
  }

  datatype Op =
    | OpRequest(ma: nat)
    | OpWork(r: Readings)
    | OpAbnormal
    | OpCableGone

  function Apply(c: Charger, op: Op): Charger {
    match op
    case OpRequest(ma) => SetInput(c, ma)
    case OpWork(r) => SoftregWork(c, r)
    case OpAbnormal => AbnormalPower(c)
    case OpCableGone => CableGone(c)
  }

  function Run(c: Charger, ops: seq<Op>): Charger
    decreases ops
  {
    if ops == [] then c else Run(Apply(c, ops[0]), ops[1..])
  }

  /** Requests stay within what the limit register can hold and be read back. */
  predicate Bounded(ops: seq<Op>) {
    forall i | 0 <= i < |ops| :: ops[i].OpRequest? ==> ops[i].ma <= MAX_LIMIT_MA
  }

  lemma ApplyKeepsSoftOk(c: Charger, op: Op)
    requires SoftOk(c) && (op.OpRequest? ==> op.ma <= MAX_LIMIT_MA)
    ensures SoftOk(Apply(c, op))
  {
  }

  lemma {:induction false} RunKeepsSoftOk(c: Charger, ops: seq<Op>)
    requires SoftOk(c) && Bounded(ops)
    ensures SoftOk(Run(c, ops))
    decreases ops
  {
    if ops != [] {
      assert Bounded(ops[1..]) by {
        assert forall i | 0 <= i < |ops[1..]| :: ops[1..][i] == ops[i + 1];
      }
      ApplyKeepsSoftOk(c, ops[0]);
      RunKeepsSoftOk(Apply(c, ops[0]), ops[1..]);
    }
  }

  /** Nothing in the run ends soft regulation: no switching off, no detached cable. */
  predicate KeepsRegulating(ops: seq<Op>) {
    forall i | 0 <= i < |ops| :: ops[i] != OpCableGone && ops[i] != OpRequest(0)
  }

  function CountReschedules(c: Charger, ops: seq<Op>): nat
    decreases ops
  {
    if ops == [] then 0
    else (if ops[0].OpWork? && Reschedules(c, ops[0].r) then 1 else 0)
         + CountReschedules(Apply(c, ops[0]), ops[1..])
  }

  /** How many 100 mA steps lead from a limit down to the minimum. */
  function StepsLeft(limit: nat): nat {
    if limit == 0 then 0 else (limit - 1) / 5
  }

  lemma ApplyRatchets(c: Charger, op: Op)
    requires SoftOk(c) && c.softReg && op != OpCableGone && op != OpRequest(0)
    ensures var d := Apply(c, op);
      && d.softReg && SoftOk(d) && d.limit <= c.limit
      && (c.limit >= 5 ==> d.limit >= 5) && (c.limit < 5 ==> d.limit == c.limit)
      && (op.OpRequest? ==> d == c)
      && (op.OpWork? && Reschedules(c, op.r) ==>
            d.limit < c.limit && StepsLeft(d.limit) < StepsLeft(c.limit))
      && StepsLeft(d.limit) <= StepsLeft(c.limit)
  {
  }

  /** The ratchet: as long as nothing ends soft regulation, requests cannot raise the limit, it
      never rises at all, and from 100 mA on it never falls below 100 mA. */
  lemma {:induction false} RegulationIsARatchet(c: Charger, ops: seq<Op>)
    requires SoftOk(c) && c.softReg && KeepsRegulating(ops)
    ensures var d := Run(c, ops);
      && d.softReg && InputMa(d) == d.softCurrent && SoftOk(d)
      && InputMa(d) <= InputMa(c)
      && (InputMa(c) >= 100 ==> InputMa(d) >= 100)
      && (InputMa(c) < 100 ==> InputMa(d) == InputMa(c))
    decreases ops
  {
    if ops != [] {
      RestRegulates(ops);
      ApplyRatchets(c, ops[0]);
      RegulationIsARatchet(Apply(c, ops[0]), ops[1..]);
    }
  }

  lemma RestRegulates(ops: seq<Op>)
    requires ops != [] && KeepsRegulating(ops)
    ensures KeepsRegulating(ops[1..]) && ops[0] != OpCableGone && ops[0] != OpRequest(0)
  {
    assert forall i | 0 <= i < |ops[1..]| :: ops[1..][i] == ops[i + 1];
  }

  /** The loop cannot keep rescheduling itself: at most 25 times from any limit, however the
      readings and the requests fall. */
  lemma {:induction false} ReschedulesAreBounded(c: Charger, ops: seq<Op>)
    requires SoftOk(c) && c.softReg && KeepsRegulating(ops)
    ensures CountReschedules(c, ops) <= StepsLeft(c.limit) <= 25
    decreases ops
  {
    if ops != [] {
      RestRegulates(ops);
      ApplyRatchets(c, ops[0]);
      ReschedulesAreBounded(Apply(c, ops[0]), ops[1..]);
    }
  }

  // ----- the driver -----

  /** The ramp of a soft start: it begins at 100 mA, no write rises by more than 100 mA over the one
      before, none exceeds the target or 100 mA, and the last one is the target. */
  predicate SoftStart(writes: seq<Byte>, target: Byte) {
    && |writes| >= 2 && writes[0] == 5 && writes[|writes| - 1] == target
    && (forall i | 0 <= i < |writes| :: writes[i] <= 5 || writes[i] <= target)
    && (forall i | 0 < i < |writes| :: writes[i] as int <= writes[i - 1] as int + 5)
    && (forall i | 0 < i < |writes| && target >= 5 :: writes[i - 1] <= writes[i])
  }

  lemma EndOfRamp(ramp: seq<Byte>, target: Byte)
    requires SoftStart(ramp, target)
    ensures SoftStart(ramp + [target], target)
  {
  }

  class ChargerData {
    var charging: bool
    var cnfg02: Cnfg02
    var limit: Byte
    var softReg: bool
    var softCurrent: nat
    var softIng: bool
    /** Every value that was written to the limit register, oldest first. */
    ghost var limitWrites: seq<Byte>

    ghost function View(): Charger
      reads this
    {
      Charger(charging, cnfg02, limit, softReg, softCurrent, softIng)
    }

    method WriteLimit(v: Byte)
      modifies `limit, `limitWrites
      ensures limit == v && limitWrites == old(limitWrites) + [v]
    {
      limit := v;
      limitWrites := limitWrites + [v];
    }

    method GetInputCurrent() returns (ma: nat)
      ensures ma == InputMa(View())
    {
      ma := limit * 20;
    }

    method SetInputCurrent(ma: nat)
      modifies `limit, `softReg, `limitWrites
      ensures View() == SetInput(old(View()), ma)
      ensures ma == 0 ==> limitWrites == old(limitWrites) + [0]
      ensures ma != 0 && limitWrites != old(limitWrites) ==>
        exists ramp :: limitWrites == old(limitWrites) + ramp && SoftStart(ramp, limit)
    {
      if ma == 0 {
        WriteLimit(0);
        softReg := false;
        return;
      }
      var target: Byte;
      if softReg {
        var inCurr := GetInputCurrent();
        if inCurr == softCurrent {
          return;
        }
        target := softCurrent / 20 % 0x100;
      } else {
        target := ma / 20 % 0x100;
      }
      SoftStartTo(target);
    }

    /** The first write, the ramp, and the target once more. */
    method SoftStartTo(target: Byte)
      modifies `limit, `limitWrites
      ensures limit == target
      ensures exists ramp :: limitWrites == old(limitWrites) + ramp && SoftStart(ramp, target)
    {
      ghost var before := limitWrites;
      WriteLimit(SOFT_CHG_START_CURR / 20);
      Ramp(target, before);
      ghost var ramp := limitWrites[|before|..];
      WriteLimit(target);
      EndOfRamp(ramp, target);
      assert limitWrites == before + (ramp + [target]);
    }

    /** The do-while loop of the soft start; the step value is an 8-bit variable. */
    method Ramp(target: Byte, ghost before: seq<Byte>)
      requires limitWrites == before + [5]
      modifies `limit, `limitWrites
      ensures |limitWrites| > |before| + 1 && limitWrites[..|before|] == before
      ensures SoftStart(limitWrites[|before|..], target) && limit == target
    {
      var step := 0;
      var now: Byte := 0;
      var first := true;
      while first || now < target
        invariant first ==> step == 0 && now == 0 && limitWrites == before + [5]
        invariant !first ==> 1 <= step <= 50 && now == if 5 + 5 * step < target then 5 + 5 * step else target
        invariant !first ==> |limitWrites| > |before| + 1 && limitWrites[..|before|] == before
        invariant !first ==> limit == now && limitWrites[|before|] == 5 && limitWrites[|limitWrites| - 1] == now
        invariant !first ==> forall i | |before| <= i < |limitWrites| ::
          limitWrites[i] <= 5 || limitWrites[i] <= target
        invariant !first ==> forall i | |before| < i < |limitWrites| ::
          && limitWrites[i] as int <= limitWrites[i - 1] as int + 5
          && (target >= 5 ==> limitWrites[i - 1] <= limitWrites[i])
        decreases if first then 1 else 0, target - now
      {
        first := false;
        step := step + 1;
        now := (SOFT_CHG_START_CURR + SOFT_CHG_CURR_STEP * step) / 20 % 0x100;
        now := if now < target then now else target;
        WriteLimit(now);
      }
    }

    method SetChargeCurrent(ma: nat)
      modifies `cnfg02
      ensures View() == SetCharge(old(View()), ma)
    {
      var code := ma * 3 / 100;
      cnfg02 := Cnfg02(Or2(cnfg02.otg, code / 64 % 4), code % 64);
    }

    method GetChargeCurrent() returns (ma: nat)
      ensures ma == CodeMa(cnfg02.code % 64)
    {
      ma := cnfg02.code % 64 * 333 / 10;
    }

    method SetChargerState(enable: bool)
      modifies `charging
      ensures charging == enable
    {
      charging := enable;
    }

    method ReduceInput(ma: nat)
      requires ma == SW_REG_CURR_STEP_MA
      modifies `limit, `softCurrent, `limitWrites
      ensures View() == Reduce(old(View()))
    {
      softCurrent := limit % 0x80 * 20;
      if softCurrent < ma {
        return;
      }
      softCurrent := softCurrent - ma;
      if softCurrent < SW_REG_CURR_MIN_MA {
        softCurrent := SW_REG_CURR_MIN_MA;
      }
      WriteLimit(softCurrent / 20);
    }

    method SoftregWorkStep(r: Readings) returns (reschedule: bool)
      modifies this
      ensures View() == SoftregWork(old(View()), r)
      ensures reschedule == Reschedules(old(View()), r)
    {
      var inCurr := limit % 0x80 * 20;
      reschedule := inCurr > SW_REG_CURR_STEP_MA && r.chg != 0x8
        && (r.byp / 8 % 2 == 1 || (r.chgin != 0x3 && r.vbvolt == 0x1));
      if reschedule {
        softIng := true;
        softReg := true;
        ReduceInput(SW_REG_CURR_STEP_MA);
      } else if softIng {
        ReduceInput(SW_REG_CURR_STEP_MA);
        softIng := false;
      }
    }

    /** max77693_charger_irq, when the supply is abnormal. */
    method AbnormalPowerIrq()
      modifies this
      ensures View() == AbnormalPower(old(View()))
    {
      softReg := true;
      ReduceInput(SW_REG_CURR_STEP_MA);
    }

    /** max77693_get_cable_type, once it has found the cable gone. */
    method CableDetached()
      modifies `softReg
      ensures View() == CableGone(old(View()))
    {
      softReg := false;
    }
  }
}
