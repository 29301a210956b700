/** battery_charge_control on top of the charger: the currents it programs, and the cache that lets
    it skip a register write. */
module ChargeControl {
  import opened Max77693

  /** A current that stands for "leave it as it is". */
  const KEEP_CURR: nat := 0xFFFF_FFFF

  datatype Cable = NoCable | Mains | Usb | UsbCdp | Dock | OtherCable

  datatype Status = Charging | NotCharging | Discharging | Full | Unknown

  /** How far the full-charge check has got. */
  datatype FullState = NotFull | FirstFull | SecondFull

  /** Temperatures at which charging stops and resumes, in the unit of the sensor. */
  datatype Thresholds = Thresholds(ovhStop: int, ovhRecover: int, frzStop: int, frzRecover: int)

  /** The board's settings. */
  datatype Params = Params(
    inLimit: nat,
    siopLv1: nat,
    siopLv2: nat,
    siopLv3: nat,
    chgUsb: nat,
    chgTa: nat,
    chgCdp: nat,
    standever: bool,
    twoStep: bool,
    fullVcell: int,
    rechargeVcell: int,
    chargeDuration: nat,
    rechargeDuration: nat,
    ctia: bool,
    normal: Thresholds,
    event: Thresholds,
    lpm: Thresholds)

  /** What battery_info remembers of the charger: the cached currents, when charging was switched on
      (0 while it is off), and the charger's state. */
  datatype Cache = Cache(inputCurrent: nat, chargeCurrent: nat, chargeStart: nat, realState: Status)

  /** The fields of battery_info that decide about charging. */
  datatype Info = Info(
    cable: Cable,
    siop: bool,
    siopLv: nat,
    cache: Cache,
    present: bool,
    temper: int,
    temperState: bool,
    overheated: bool,
    freezed: bool,
    rechargePhase: bool,
    fullState: FullState)

  function Min(a: nat, b: nat): nat {
    if a <= b then a else b
  }

  // ----- the function of the driver -----

  function SiopCurrent(p: Params, lv: nat): nat {
    match lv
    case 1 => p.siopLv1
    case 2 => p.siopLv2
    case 3 => p.siopLv3
    case _ => p.chgUsb
  }

  /** The charge current after the cap that the thermal governor asks for. */
  function Capped(p: Params, i: Info, chg: nat): nat {
    if i.cable != NoCable && chg > 0 && i.siop then Min(chg, SiopCurrent(p, i.siopLv)) else chg
  }

  /** The thermal governor caps a charge current, while a cable is attached, at the current of its level;
      any level it does not know counts as the current of a USB port. */
  lemma CappedOutcome(p: Params, i: Info, chg: nat)
    ensures i.cable == NoCable || !i.siop || chg == 0 ==> Capped(p, i, chg) == chg
    ensures i.cable != NoCable && i.siop && i.siopLv == 1 && chg > 0 ==>
      Capped(p, i, chg) == if chg < p.siopLv1 then chg else p.siopLv1
    ensures i.cable != NoCable && i.siop && i.siopLv == 2 && chg > 0 ==>
      Capped(p, i, chg) == if chg < p.siopLv2 then chg else p.siopLv2
    ensures i.cable != NoCable && i.siop && i.siopLv == 3 && chg > 0 ==>
      Capped(p, i, chg) == if chg < p.siopLv3 then chg else p.siopLv3
    ensures i.cable != NoCable && i.siop && !(1 <= i.siopLv <= 3) && chg > 0 ==>
      Capped(p, i, chg) == if chg < p.chgUsb then chg else p.chgUsb
  {
  }

  function ControlInput(p: Params, h: Cache, c: Charger, inn: nat): (Cache, Charger) {
    var ma := Min(inn, p.inLimit);
    if inn == KEEP_CURR || h.inputCurrent == ma / 20 * 20 then (h, c)
    else
      var c' := SetInput(c, ma);
      (h.(inputCurrent := InputMa(c')), c')
  }

  function ControlCharge(h: Cache, c: Charger, chg: nat): (Cache, Charger) {
    if chg == KEEP_CURR || h.chargeCurrent == CodeMa(ChargeCode(chg)) then (h, c)
    else
      var c' := SetCharge(c, chg);
      (h.(chargeCurrent := CodeMa(c'.cnfg02.code % 64)), c')
  }

  /** Charging is switched only when the recorded start time says it has to be; `status` is the
      charger's state afterwards. */
  function ControlSwitch(h: Cache, c: Charger, chg: nat, now: nat, status: Status): (Cache, Charger) {
    if chg != 0 && h.chargeStart == 0
    then (h.(chargeStart := now, realState := status), c.(charging := true))
    else if chg == 0 && h.chargeStart != 0
    then (h.(chargeStart := 0, realState := status), c.(charging := false))
    else (h, c)
  }

  /** Charging is switched exactly when a current is asked for without a recorded start, or none is asked
      for with one; the start is then recorded or dropped, and the charger's state read again. */
  lemma SwitchOutcome(h: Cache, c: Charger, chg: nat, now: nat, status: Status)
    ensures var (h', c') := ControlSwitch(h, c, chg, now, status);
      && (chg != 0 && h.chargeStart == 0 ==> c'.charging && h'.chargeStart == now && h'.realState == status)
      && (chg == 0 && h.chargeStart != 0 ==> !c'.charging && h'.chargeStart == 0 && h'.realState == status)
      && ((chg != 0 <==> h.chargeStart != 0) ==> h' == h && c' == c)
      && h' == h.(chargeStart := h'.chargeStart, realState := h'.realState) && c' == c.(charging := c'.charging)
  {
  }

  /** The three parts in order, for a charge current that is capped already. */
  function Program(p: Params, h: Cache, c: Charger, chg: nat, inn: nat, now: nat, status: Status)
    : (Cache, Charger)
  {
    var (h1, c1) := ControlInput(p, h, c, inn);
    var (h2, c2) := ControlCharge(h1, c1, chg);
    ControlSwitch(h2, c2, chg, now, status)
  }

  function Control(p: Params, i: Info, c: Charger, chg: nat, inn: nat, now: nat, status: Status)
    : (Info, Charger)
  {
    var (h, c') := Program(p, i.cache, c, Capped(p, i, chg), inn, now, status);
    (i.(cache := h), c')
  }

  // ----- soundness of skipping -----

  /** The cached currents are what the charger would read back. */
  predicate Coherent(h: Cache, c: Charger) {
    && h.inputCurrent == InputMa(c)
    && h.chargeCurrent == CodeMa(c.cnfg02.code)
    && c.cnfg02.code < 64 && c.cnfg02.otg < 4
  }

  /** The charger is on exactly while a start time is recorded. */
  predicate SwitchOk(h: Cache, c: Charger) {
    c.charging <==> h.chargeStart != 0
  }

  lemma InputSkipIsInvisible(p: Params, h: Cache, c: Charger, inn: nat)
    requires Coherent(h, c) && SoftOk(c) && p.inLimit <= MAX_LIMIT_MA && inn != KEEP_CURR
    ensures var ma := Min(inn, p.inLimit);
      var (h', c') := ControlInput(p, h, c, inn);
      && c'.limit == SetInput(c, ma).limit
      && (ma != 0 || !c.softReg ==> c' == SetInput(c, ma))
      && c'.limit == (if c.softReg && ma != 0 then c.limit else ma / 20)
      && SoftOk(c') && Coherent(h', c')
  {
    var ma := Min(inn, p.inLimit);
    assert ma / 20 <= 127;
  }

  lemma OrWithNothing(a: nat)
    requires a < 4
    ensures Or2(a, 0) == a
  {
  }

  lemma ChargeSkipIsInvisible(h: Cache, c: Charger, chg: nat)
    requires Coherent(h, c) && chg <= 2133
    ensures var (h', c') := ControlCharge(h, c, chg);
      c' == SetCharge(c, chg) && c'.cnfg02 == Cnfg02(c.cnfg02.otg, ChargeCode(chg)) && Coherent(h', c')
  {
    assert ChargeCode(chg) < 64;
    OrWithNothing(c.cnfg02.otg);
    CodeMaIsInjective(c.cnfg02.code, ChargeCode(chg));
  }

  /** The input part by its outcome: the limit is the one asked for, unless soft regulation holds
      it, and nothing else moves. */
  lemma InputPart(p: Params, h: Cache, c: Charger, inn: nat)
    requires Coherent(h, c) && SoftOk(c) && p.inLimit <= MAX_LIMIT_MA
    ensures var (h', c') := ControlInput(p, h, c, inn);
      && c'.limit == (if inn == KEEP_CURR || (c.softReg && Min(inn, p.inLimit) != 0) then c.limit
                      else Min(inn, p.inLimit) / 20)
      && c' == c.(limit := c'.limit, softReg := c'.softReg) && SoftOk(c') && Coherent(h', c')
      && h' == h.(inputCurrent := h'.inputCurrent)
  {
    if inn != KEEP_CURR {
      InputSkipIsInvisible(p, h, c, inn);
    }
  }

  lemma ChargePart(h: Cache, c: Charger, chg: nat)
    requires Coherent(h, c) && (chg == KEEP_CURR || chg <= 2133)
    ensures var (h', c') := ControlCharge(h, c, chg);
      && c' == c.(cnfg02 := if chg == KEEP_CURR then c.cnfg02 else Cnfg02(c.cnfg02.otg, ChargeCode(chg)))
      && Coherent(h', c') && h' == h.(chargeCurrent := h'.chargeCurrent)
  {
    if chg != KEEP_CURR {
      ChargeSkipIsInvisible(h, c, chg);
    }
  }

  /** Whatever is skipped, the registers end as if every write had been made: the charge code is the
      one of the capped current, the limit is the one asked for unless soft regulation holds it, and the
      OTG bits stay. The cache and the soft regulation invariant stay in step with the registers. If the
      switch record was right it stays right, and the charger is on exactly if a charge current was
      asked for. */
  lemma ControlProgramsTheRegisters(p: Params, i: Info, c: Charger, chg: nat, inn: nat, now: nat, status: Status)
    requires Coherent(i.cache, c) && SoftOk(c) && p.inLimit <= MAX_LIMIT_MA
    requires Capped(p, i, chg) == KEEP_CURR || Capped(p, i, chg) <= 2133
    ensures var chg', ma := Capped(p, i, chg), Min(inn, p.inLimit);
      var (i', c') := Control(p, i, c, chg, inn, now, status);
      && c'.cnfg02 == (if chg' == KEEP_CURR then c.cnfg02 else Cnfg02(c.cnfg02.otg, ChargeCode(chg')))
      && c'.limit == (if inn == KEEP_CURR || (c.softReg && ma != 0) then c.limit else ma / 20)
      && Coherent(i'.cache, c') && SoftOk(c')
      && i' == i.(cache := i'.cache)
      && (SwitchOk(i.cache, c) && now > 0 ==> c'.charging == (chg' != 0) && SwitchOk(i'.cache, c'))
  {
    InputPart(p, i.cache, c, inn);
    var (h1, c1) := ControlInput(p, i.cache, c, inn);
    ChargePart(h1, c1, Capped(p, i, chg));
  }

  /** The cache has to be fresh: with a stale one the limit is right exactly when the write was not
      skipped or would have changed nothing. */
  lemma StaleCacheSkipsIff(p: Params, h: Cache, c: Charger, inn: nat)
    requires SoftOk(c) && !c.softReg && p.inLimit <= MAX_LIMIT_MA && inn != KEEP_CURR
    ensures var ma := Min(inn, p.inLimit);
      ControlInput(p, h, c, inn).1.limit == ma / 20 <==>
        h.inputCurrent != ma / 20 * 20 || h.inputCurrent == InputMa(c)
  {
  }

  lemma OffInput(p: Params, h: Cache, c: Charger)
    requires h.inputCurrent == InputMa(c)
    ensures var (h', c') := ControlInput(p, h, c, 0);
      && c' == c.(limit := 0, softReg := c'.softReg)
      && h' == h.(inputCurrent := 0)
  {
  }

  lemma OffCharge(h: Cache, c: Charger)
    requires Coherent(h, c)
    ensures var (h', c') := ControlCharge(h, c, 0);
      && c' == c.(cnfg02 := Cnfg02(c.cnfg02.otg, 0))
      && h' == h.(chargeCurrent := 0)
  {
    CodeMaIsInjective(c.cnfg02.code, 0);
    OrWithNothing(c.cnfg02.otg);
  }

  /** Switching everything off always reaches the registers, from any state of soft regulation. It
      switches the charger off unless it is on without a start time. */
  lemma OffReachesTheRegisters(p: Params, i: Info, c: Charger, now: nat, status: Status)
    requires Coherent(i.cache, c)
    ensures var (i', c') := Control(p, i, c, 0, 0, now, status);
      && c'.limit == 0 && c'.cnfg02 == Cnfg02(c.cnfg02.otg, 0)
      && i'.cache.chargeStart == 0 && (c'.charging <==> c.charging && i.cache.chargeStart == 0)
      && (SwitchOk(i.cache, c) ==> !c'.charging && SwitchOk(i'.cache, c'))
      && i' == i.(cache := i'.cache)
  {
    OffInput(p, i.cache, c);
    var (h1, c1) := ControlInput(p, i.cache, c, 0);
    OffCharge(h1, c1);
  }
}
