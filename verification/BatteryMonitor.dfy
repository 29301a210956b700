/** The polled battery monitor: when a poll stops charging because of the temperature, and how long
    charging stays off. */
module BatteryMonitor {
  import opened Max77693
  import opened ChargeControl
  import EventWindow

  /** Everything a poll reads, the clock once for all. `fullTimer` tells the second step of a two-step
      termination, `restarted` is the charger's state after a restart, and `eventOn` says that the event
      window is open. */
  datatype Poll = Poll(
    testMode: bool,
    jig: bool,
    presentNow: bool,
    healthBad: bool,
    slate: bool,
    cable: Cable,
    status: Status,
    present: bool,
    counted: bool,
    temper: int,
    lpm: bool,
    eventOn: bool,
    vcell: int,
    soc: int,
    fullTimer: bool,
    restarted: Status,
    dockCurrent: nat,
    statusAfter: Status,
    now: nat)

  // ----- the steps of a poll -----

  function Cleared(i: Info): Info {
    i.(overheated := false, freezed := false, temperState := false, rechargePhase := false,
       fullState := NotFull)
  }

  function Off(p: Params, i: Info, c: Charger, poll: Poll): (Info, Charger) {
    Control(p, i, c, 0, 0, poll.now, poll.statusAfter)
  }

  /** battery_update_info: the cache of the currents is read back from the charger. */
  function Update(i: Info, c: Charger, poll: Poll): (Info, Charger) {
    var c' := if !poll.slate && poll.cable == NoCable then CableGone(c) else c;
    var cable := if poll.slate then NoCable else poll.cable;
    (i.(cable := cable, present := poll.present,
        cache := Cache(InputMa(c'), CodeMa(c'.cnfg02.code), i.cache.chargeStart, poll.status),
        temper := if cable != NoCable && !poll.present && poll.counted then i.temper else poll.temper),
     c')
  }

  /** The thresholds in force at a poll. */
  function InForce(p: Params, poll: Poll): Thresholds {
    if p.ctia && poll.lpm then p.lpm
    else if p.ctia && poll.eventOn then p.event
    else p.normal
  }

  /** battery_temper_cond. */
  function Temper(p: Params, i: Info, poll: Poll): Info {
    var th := InForce(p, poll);
    if !i.temperState then
      if i.cache.realState != Charging then i
      else
        var ovh, frz := i.temper >= th.ovhStop, i.temper <= th.frzStop;
        Settle(i.(overheated := i.overheated || ovh, freezed := i.freezed || (!ovh && frz)))
    else if i.overheated && i.temper <= th.ovhRecover then Settle(i.(overheated := false))
    else if i.freezed && i.temper >= th.frzRecover then Settle(i.(freezed := false))
    else Settle(i)
  }

  function Settle(i: Info): Info {
    i.(freezed := i.freezed && !i.overheated, temperState := i.overheated || i.freezed)
  }

  /** The currents of a cable; other cable types are left alone. */
  function CableCurrents(p: Params, cable: Cable, poll: Poll): (nat, nat) {
    match cable
    case Mains => (p.chgTa, p.inLimit)
    case Usb => (p.chgUsb, p.chgUsb)
    case UsbCdp => (p.chgCdp, p.chgCdp)
    case Dock => (poll.dockCurrent, poll.dockCurrent)
    case _ => (0, 0)
  }

  function ChargeOk(p: Params, i: Info, c: Charger, poll: Poll): (Info, Charger) {
    if i.cable == NoCable then
      var (i', c') := Off(p, i, c, poll);
      (Cleared(i'), c')
    else if i.cable == OtherCable then (i, c)
    else
      var (chg, inn) := CableCurrents(p, i.cable, poll);
      Control(p, i, c, chg, inn, poll.now, poll.statusAfter)
  }

  predicate BatteryError(i: Info, poll: Poll) {
    (!poll.jig && !poll.presentNow) || (!i.temperState && poll.healthBad)
  }

  /** What a battery error does before the poll goes on. */
  function OnError(p: Params, i: Info, c: Charger, poll: Poll): (Info, Charger) {
    if !BatteryError(i, poll) then (i, c)
    else if p.standever then (Cleared(i), c)
    else Off(p, Cleared(i), c, poll)
  }

  /** The gauge confirms what the charger says. */
  predicate RealFull(p: Params, poll: Poll) {
    poll.vcell > p.fullVcell && poll.soc > 95
  }

  /** battery_fullcharged_cond: a charger that says full against the gauge is restarted. */
  function FullCond(p: Params, i: Info, c: Charger, poll: Poll): (Info, Charger, bool) {
    if i.cache.realState != Full then (i, c, false)
    else if !RealFull(p, poll)
    then (i.(cache := i.cache.(realState := poll.restarted)), c.(charging := true), false)
    else if !p.twoStep then (i.(fullState := FirstFull), c, true)
    else if poll.fullTimer then (i.(fullState := SecondFull), c, true)
    else (i.(fullState := FirstFull), c, false)
  }

  /** battery_abstimer_cond: charging has taken too long. Seconds are 32-bit numbers. */
  predicate Abstimer(p: Params, i: Info, now: nat) {
    && i.cable != Usb && i.fullState == NotFull && i.cache.chargeStart != 0
    && (now - i.cache.chargeStart) % 0x1_0000_0000 > if i.rechargePhase then p.rechargeDuration else p.chargeDuration
  }

  /** battery_recharge_cond. */
  predicate Recharge(p: Params, i: Info, poll: Poll) {
    i.cache.realState != Charging && poll.vcell < p.rechargeVcell
  }

  /** The part of a poll after the readings, with a cable attached. */
  function Decide(p: Params, i: Info, c: Charger, poll: Poll): (Info, Charger) {
    var t := Temper(p, i, poll);
    if t.temperState then Off(p, t, c, poll) else Resume(p, t, c, poll)
  }

  /** And with no stop for the temperature. */
  function Resume(p: Params, t: Info, c: Charger, poll: Poll): (Info, Charger) {
    var (f, c1, full) := FullCond(p, t, c, poll);
    if full then
      var (i', c') := Control(p, f, c1, 0, KEEP_CURR, poll.now, poll.statusAfter);
      (i'.(rechargePhase := true), c')
    else Continue(p, f, c1, poll)
  }

  /** And not full. */
  function Continue(p: Params, f: Info, c: Charger, poll: Poll): (Info, Charger) {
    if Abstimer(p, f, poll.now) then
      var (i', c') := Off(p, f, c, poll);
      (i'.(rechargePhase := true), c')
    else if f.rechargePhase && !Recharge(p, f, poll) then (f, c)
    else ChargeOk(p, f, c, poll)
  }

  /** battery_monitor_work. */
  function Monitor(p: Params, i: Info, c: Charger, poll: Poll): (Info, Charger) {
    if poll.testMode then (i, c)
    else
      var (i1, c1) := OnError(p, i, c, poll);
      var (i2, c2) := Update(i1, c1, poll);
      if !i2.present then (i2, c2)
      else if i2.cable == NoCable then ChargeOk(p, i2, c2, poll)
      else Decide(p, i2, c2, poll)
  }

  // ----- hysteresis -----

  /** The stop flag is the disjunction of its two reasons, which exclude each other. */
  predicate TemperOk(i: Info) {
    (i.temperState <==> i.overheated || i.freezed) && !(i.overheated && i.freezed)
  }

  predicate RegistersOk(c: Charger) {
    c.cnfg02.code < 64 && c.cnfg02.otg < 4
  }

  lemma OffKeepsTemperOk(p: Params, i: Info, c: Charger, chg: nat, inn: nat, poll: Poll)
    requires TemperOk(i)
    ensures TemperOk(Control(p, i, c, chg, inn, poll.now, poll.statusAfter).0)
  {
  }

  lemma ChargeOkKeepsTemperOk(p: Params, i: Info, c: Charger, poll: Poll)
    requires TemperOk(i)
    ensures TemperOk(ChargeOk(p, i, c, poll).0)
  {
    OffKeepsTemperOk(p, i, c, 0, 0, poll);
    var (chg, inn) := CableCurrents(p, i.cable, poll);
    OffKeepsTemperOk(p, i, c, chg, inn, poll);
  }

  /** What follows the temperature check leaves the stop flags alone, or clears them. */
  lemma ContinueKeepsFlags(p: Params, f: Info, c: Charger, poll: Poll)
    requires !f.temperState && !f.overheated && !f.freezed
    ensures var i' := Continue(p, f, c, poll).0; !i'.temperState && !i'.overheated && !i'.freezed
  {
    var (chg, inn) := CableCurrents(p, f.cable, poll);
  }

  lemma ResumeKeepsFlags(p: Params, t: Info, c: Charger, poll: Poll)
    requires !t.temperState && !t.overheated && !t.freezed
    ensures var i' := Resume(p, t, c, poll).0; !i'.temperState && !i'.overheated && !i'.freezed
  {
    var (f, c1, full) := FullCond(p, t, c, poll);
    ContinueKeepsFlags(p, f, c1, poll);
  }

  lemma DecideKeepsTemperOk(p: Params, i: Info, c: Charger, poll: Poll)
    requires TemperOk(i)
    ensures TemperOk(Decide(p, i, c, poll).0)
    ensures Decide(p, i, c, poll).0.temperState == Temper(p, i, poll).temperState
  {
    var t := Temper(p, i, poll);
    if t.temperState {
      OffKeepsTemperOk(p, t, c, 0, 0, poll);
    } else {
      ResumeKeepsFlags(p, t, c, poll);
    }
  }

  lemma MonitorKeepsTemperOk(p: Params, i: Info, c: Charger, poll: Poll)
    requires TemperOk(i)
    ensures TemperOk(Monitor(p, i, c, poll).0)
  {
    OffKeepsTemperOk(p, Cleared(i), c, 0, 0, poll);
    var (i1, c1) := OnError(p, i, c, poll);
    var (i2, c2) := Update(i1, c1, poll);
    ChargeOkKeepsTemperOk(p, i2, c2, poll);
    DecideKeepsTemperOk(p, i2, c2, poll);
  }

  /** A poll with the cable attached and the battery there; it may find anything else. */
  predicate Undisturbed(poll: Poll) {
    !poll.testMode && (poll.jig || poll.presentNow) && poll.present && !poll.slate && poll.cable != NoCable
  }

  /** The temperature has passed the recovery threshold, in force now, that matches the reason of
      the stop. */
  predicate Recovers(p: Params, i: Info, poll: Poll) {
    if i.overheated then poll.temper <= InForce(p, poll).ovhRecover
    else poll.temper >= InForce(p, poll).frzRecover
  }

  /** Charging is programmed off: no charge current, no input current. */
  predicate ProgrammedOff(c: Charger) {
    c.limit == 0 && c.cnfg02.code == 0
  }

  /** A charger with a recorded start time is on. */
  predicate RecordOk(h: Cache, c: Charger) {
    h.chargeStart != 0 ==> c.charging
  }

  /** A stopped battery is programmed off, and no start time is recorded. */
  predicate StopOk(i: Info, c: Charger) {
    && TemperOk(i) && RegistersOk(c) && RecordOk(i.cache, c)
    && (i.temperState ==> ProgrammedOff(c) && i.cache.chargeStart == 0)
  }

  lemma UndisturbedPoll(p: Params, i: Info, c: Charger, poll: Poll)
    requires Undisturbed(poll) && i.temperState
    ensures Monitor(p, i, c, poll) == Decide(p, Update(i, c, poll).0, c, poll)
    ensures Update(i, c, poll).1 == c
    ensures RegistersOk(c) ==> Coherent(Update(i, c, poll).0.cache, c)
  {
  }

  /** A poll of a stopped battery resumes exactly when the temperature recovers; otherwise it keeps
      the reason of the stop and programs both currents to 0, whatever the registers held. */
  lemma StoppedPoll(p: Params, i: Info, c: Charger, poll: Poll)
    requires TemperOk(i) && i.temperState && Undisturbed(poll) && RegistersOk(c)
    ensures var (i', c') := Monitor(p, i, c, poll);
      && i'.temperState == !Recovers(p, i, poll)
      && (!Recovers(p, i, poll) ==>
            && i'.overheated == i.overheated && i'.freezed == i.freezed
            && ProgrammedOff(c') && RegistersOk(c') && i'.cache.chargeStart == 0
            && (c'.charging <==> c.charging && i.cache.chargeStart == 0)
            && (SwitchOk(i.cache, c) ==> !c'.charging && SwitchOk(i'.cache, c')))
  {
    UndisturbedPoll(p, i, c, poll);
    var u := Update(i, c, poll).0;
    var t := Temper(p, u, poll);
    if Recovers(p, i, poll) {
      assert !t.temperState;
      DecideKeepsTemperOk(p, u, c, poll);
    } else {
      assert t.temperState;
      OffReachesTheRegisters(p, t, c, poll.now, poll.statusAfter);
    }
  }

  /** A poll of a battery that is not stopped stops it exactly when it is charging and too hot or
      too cold; it then programs both currents to 0 and switches the charger off. */
  lemma RunningPoll(p: Params, i: Info, c: Charger, poll: Poll)
    requires TemperOk(i) && !i.temperState && !BatteryError(i, poll) && Undisturbed(poll) && RegistersOk(c)
    ensures var (i', c') := Monitor(p, i, c, poll);
      var th := InForce(p, poll);
      && (i'.temperState <==>
            poll.status == Charging && (poll.temper >= th.ovhStop || poll.temper <= th.frzStop))
      && (i'.temperState ==>
            && (i'.overheated <==> poll.temper >= th.ovhStop)
            && ProgrammedOff(c') && RegistersOk(c') && i'.cache.chargeStart == 0
            && (c'.charging <==> c.charging && i.cache.chargeStart == 0)
            && (SwitchOk(i.cache, c) ==> !c'.charging && SwitchOk(i'.cache, c')))
  {
    var u := Update(i, c, poll).0;
    var t := Temper(p, u, poll);
    if t.temperState {
      OffReachesTheRegisters(p, t, c, poll.now, poll.statusAfter);
    } else {
      DecideKeepsTemperOk(p, u, c, poll);
    }
  }

  /** While an event is active, and for at least the whole period after the last one ended, polls use
      the event thresholds, for any history of stores and alarms. */
  lemma EventThresholdsStayInForce(p: Params, poll: Poll, h: seq<EventWindow.Timed>, period: nat)
    requires EventWindow.Possible(h, period) && EventWindow.NotBefore(poll.now, h)
    requires poll.eventOn <==> EventWindow.After(h, period).state != EventWindow.Clear
    requires p.ctia && !poll.lpm
    ensures EventWindow.Active(h) != {} ==> InForce(p, poll) == p.event
    ensures EventWindow.LastEnd(h).Some? && poll.now < EventWindow.LastEnd(h).value + period ==>
      InForce(p, poll) == p.event
    ensures EventWindow.Active(h) == {} && EventWindow.LastEnd(h).None? ==> InForce(p, poll) == p.normal
  {
    EventWindow.WindowCoversEventsAndPeriod(h, period, poll.now);
  }

  // ----- whole runs -----

  /** What the charger does by itself between two polls. */
  datatype Between = SoftWork(r: Readings) | AbnormalIrq | CableRead

  function ApplyBetween(c: Charger, b: Between): Charger {
    match b
    case SoftWork(r) => SoftregWork(c, r)
    case AbnormalIrq => AbnormalPower(c)
    case CableRead => CableGone(c)
  }

  function RunBetween(c: Charger, bs: seq<Between>): Charger
    decreases bs
  {
    if bs == [] then c else RunBetween(ApplyBetween(c, bs[0]), bs[1..])
  }

  /** Soft regulation never brings back a limit of 0. */
  lemma {:induction false} OffStaysOffBetweenPolls(c: Charger, bs: seq<Between>)
    requires ProgrammedOff(c) && RegistersOk(c)
    ensures ProgrammedOff(RunBetween(c, bs)) && RegistersOk(RunBetween(c, bs))
    ensures RunBetween(c, bs).charging == c.charging
    decreases bs
  {
    if bs != [] {
      OffStaysOffBetweenPolls(ApplyBetween(c, bs[0]), bs[1..]);
    }
  }

  datatype Round = Round(before: seq<Between>, poll: Poll)

  function Rounds(p: Params, i: Info, c: Charger, rs: seq<Round>): (Info, Charger)
    decreases rs
  {
    if rs == [] then (i, c)
    else
      var (i', c') := Monitor(p, i, RunBetween(c, rs[0].before), rs[0].poll);
      Rounds(p, i', c', rs[1..])
  }

  /** No poll of the run is disturbed, and none sees the temperature recover. */
  predicate NeverRecovers(p: Params, i: Info, rs: seq<Round>) {
    forall k | 0 <= k < |rs| :: Undisturbed(rs[k].poll) && !Recovers(p, i, rs[k].poll)
  }

  /** Hysteresis: once stopped, charging stays programmed off at the end of every poll and all the
      way to the next, for runs of any length, under thresholds that may change from poll to poll,
      until a poll sees the matching recovery threshold passed. The charger stays as it was switched. */
  lemma {:induction false} StoppedUntilRecovery(p: Params, i: Info, c: Charger, rs: seq<Round>)
    requires StopOk(i, c) && i.temperState
    requires NeverRecovers(p, i, rs)
    ensures var (i', c') := Rounds(p, i, c, rs);
      && StopOk(i', c') && i'.temperState && i'.overheated == i.overheated
      && c'.charging == c.charging && (SwitchOk(i.cache, c) ==> SwitchOk(i'.cache, c') && !c'.charging)
    decreases rs
  {
    if rs != [] {
      var c1 := RunBetween(c, rs[0].before);
      OffStaysOffBetweenPolls(c, rs[0].before);
      StoppedPoll(p, i, c1, rs[0].poll);
      MonitorKeepsTemperOk(p, i, c1, rs[0].poll);
      var (i', c') := Monitor(p, i, c1, rs[0].poll);
      assert NeverRecovers(p, i', rs[1..]) by {
        forall k | 0 <= k < |rs[1..]|
          ensures Undisturbed(rs[1..][k].poll) && !Recovers(p, i', rs[1..][k].poll)
        {
          assert rs[1..][k] == rs[k + 1];
        }
      }
      StoppedUntilRecovery(p, i', c', rs[1..]);
    }
  }

  // ----- whole runs of any polls -----

  /** Programming the charger switches it on for a nonzero current and off for 0, and keeps the switch
      record, whatever the currents are; only a charger that is on without a start time stays on. */
  lemma ControlKeepsRecord(p: Params, i: Info, c: Charger, chg: nat, inn: nat, now: nat, status: Status)
    requires RecordOk(i.cache, c)
    ensures var (i', c') := Control(p, i, c, chg, inn, now, status);
      && RecordOk(i'.cache, c')
      && (c'.charging <==> Capped(p, i, chg) != 0 || (c.charging && i.cache.chargeStart == 0))
      && (Capped(p, i, chg) == 0 ==> i'.cache.chargeStart == 0)
      && (Capped(p, i, chg) != 0 && now > 0 ==> i'.cache.chargeStart != 0)
      && (RegistersOk(c) ==> RegistersOk(c'))
  {
    var (h1, c1) := ControlInput(p, i.cache, c, inn);
    var chg' := Capped(p, i, chg);
    assert RegistersOk(c) ==> RegistersOk(SetCharge(c1, chg'));
  }

  lemma UpdateKeepsRecord(i: Info, c: Charger, poll: Poll)
    requires RecordOk(i.cache, c)
    ensures var (i', c') := Update(i, c, poll);
      && RecordOk(i'.cache, c') && c'.charging == c.charging && i'.cache.chargeStart == i.cache.chargeStart
      && (RegistersOk(c) ==> RegistersOk(c') && Coherent(i'.cache, c'))
      && (ProgrammedOff(c) ==> ProgrammedOff(c'))
  {
  }

  lemma OffKeepsStopOk(p: Params, i: Info, c: Charger, poll: Poll)
    requires TemperOk(i) && RecordOk(i.cache, c) && Coherent(i.cache, c)
    ensures var (i', c') := Off(p, i, c, poll); StopOk(i', c') && StopOk(Cleared(i'), c')
  {
    ControlKeepsRecord(p, i, c, 0, 0, poll.now, poll.statusAfter);
    OffReachesTheRegisters(p, i, c, poll.now, poll.statusAfter);
  }

  lemma RunningKeepsStopOk(p: Params, i: Info, c: Charger, chg: nat, inn: nat, poll: Poll)
    requires TemperOk(i) && !i.temperState && RecordOk(i.cache, c) && RegistersOk(c)
    ensures var (i', c') := Control(p, i, c, chg, inn, poll.now, poll.statusAfter);
      StopOk(i', c') && !i'.temperState
  {
    ControlKeepsRecord(p, i, c, chg, inn, poll.now, poll.statusAfter);
  }

  lemma ContinueKeepsStopOk(p: Params, f: Info, c: Charger, poll: Poll)
    requires TemperOk(f) && !f.temperState && RecordOk(f.cache, c) && RegistersOk(c)
    ensures var (i', c') := Continue(p, f, c, poll); StopOk(i', c')
  {
    var (chg, inn) := CableCurrents(p, f.cable, poll);
    RunningKeepsStopOk(p, f, c, 0, 0, poll);
    RunningKeepsStopOk(p, f, c, chg, inn, poll);
  }

  lemma ResumeKeepsStopOk(p: Params, t: Info, c: Charger, poll: Poll)
    requires TemperOk(t) && !t.temperState && RecordOk(t.cache, c) && RegistersOk(c)
    ensures var (i', c') := Resume(p, t, c, poll); StopOk(i', c')
  {
    var (f, c1, full) := FullCond(p, t, c, poll);
    if full {
      RunningKeepsStopOk(p, f, c1, 0, KEEP_CURR, poll);
    } else {
      ContinueKeepsStopOk(p, f, c1, poll);
    }
  }

  lemma DecideKeepsStopOk(p: Params, i: Info, c: Charger, poll: Poll)
    requires TemperOk(i) && RecordOk(i.cache, c) && Coherent(i.cache, c)
    ensures var (i', c') := Decide(p, i, c, poll); StopOk(i', c')
  {
    var t := Temper(p, i, poll);
    if t.temperState {
      OffKeepsStopOk(p, t, c, poll);
    } else {
      ResumeKeepsStopOk(p, t, c, poll);
    }
  }

  lemma ErrorKeepsStopOk(p: Params, i: Info, c: Charger, poll: Poll)
    requires StopOk(i, c)
    ensures var (i', c') := OnError(p, i, c, poll); StopOk(i', c')
  {
    RunningKeepsStopOk(p, Cleared(i), c, 0, 0, poll);
  }

  /** Every poll, disturbed or not, ends with a stopped battery programmed off. */
  lemma PollKeepsStopOk(p: Params, i: Info, c: Charger, poll: Poll)
    requires StopOk(i, c)
    ensures var (i', c') := Monitor(p, i, c, poll); StopOk(i', c')
  {
    ErrorKeepsStopOk(p, i, c, poll);
    var (i1, c1) := OnError(p, i, c, poll);
    UpdateKeepsRecord(i1, c1, poll);
    var (i2, c2) := Update(i1, c1, poll);
    OffKeepsStopOk(p, i2, c2, poll);
    DecideKeepsStopOk(p, i2, c2, poll);
  }

  /** At every point of every run, with any polls and any soft regulation in between, a battery that
      is stopped for its temperature is programmed off. */
  lemma {:induction false} StoppedMeansOff(p: Params, i: Info, c: Charger, rs: seq<Round>)
    requires StopOk(i, c)
    ensures var (i', c') := Rounds(p, i, c, rs); StopOk(i', c')
    decreases rs
  {
    if rs != [] {
      var c1 := RunBetween(c, rs[0].before);
      BetweenKeepsSwitch(c, rs[0].before);
      if i.temperState {
        OffStaysOffBetweenPolls(c, rs[0].before);
      }
      PollKeepsStopOk(p, i, c1, rs[0].poll);
      var (i', c') := Monitor(p, i, c1, rs[0].poll);
      StoppedMeansOff(p, i', c', rs[1..]);
    }
  }

  lemma {:induction false} BetweenKeepsSwitch(c: Charger, bs: seq<Between>)
    requires RegistersOk(c)
    ensures RegistersOk(RunBetween(c, bs)) && RunBetween(c, bs).charging == c.charging
    decreases bs
  {
    if bs != [] {
      BetweenKeepsSwitch(ApplyBetween(c, bs[0]), bs[1..]);
    }
  }

  // ----- restarts without a record -----

  /** The capped charge current that a poll finds for its cable is not 0. */
  predicate HasCurrent(p: Params, i: Info, poll: Poll) {
    && poll.cable != OtherCable
    && CableCurrents(p, poll.cable, poll).0 != 0 && (i.siop ==> SiopCurrent(p, i.siopLv) != 0)
  }

  /** The full-charge check is reached and restarts the charger. */
  predicate Restarts(p: Params, i: Info, poll: Poll) {
    && !poll.testMode && poll.present && !poll.slate && poll.cable != NoCable
    && (i.temperState && !BatteryError(i, poll) ==> Recovers(p, i, poll))
    && poll.status == Full && !RealFull(p, poll)
  }

  /** The restarted charger has no start time, and the poll does not go on to record one. */
  predicate RestartsUnrecorded(p: Params, i: Info, poll: Poll) {
    var error := BatteryError(i, poll);
    && Restarts(p, i, poll)
    && (i.cache.chargeStart == 0 || (error && !p.standever))
    && (!HasCurrent(p, i, poll) || (!error && WaitsAfterRestart(p, i, poll)))
  }

  /** The recharge check has the battery wait on, judging by the charger's state after the restart. */
  predicate WaitsAfterRestart(p: Params, i: Info, poll: Poll) {
    i.rechargePhase && !(poll.restarted != Charging && poll.vcell < p.rechargeVcell)
  }

  /** The exact condition under which the switch record stops telling whether the charger is on. */
  lemma SwitchRecordKeptIff(p: Params, i: Info, c: Charger, poll: Poll)
    requires TemperOk(i) && SwitchOk(i.cache, c) && poll.now > 0
    ensures var (i', c') := Monitor(p, i, c, poll);
      SwitchOk(i'.cache, c') <==> !RestartsUnrecorded(p, i, poll)
  {
    if !poll.testMode {
      StateAfterError(p, i, c, poll);
      var (i1, c1) := OnError(p, i, c, poll);
      UpdateKeepsRecord(i1, c1, poll);
      var (i2, c2) := Update(i1, c1, poll);
      if i2.present && i2.cable == NoCable {
        ControlKeepsRecord(p, i2, c2, 0, 0, poll.now, poll.statusAfter);
      } else if i2.present {
        DecideKeepsSwitchIff(p, i2, c2, poll);
      }
    }
  }

  lemma StateAfterError(p: Params, i: Info, c: Charger, poll: Poll)
    requires TemperOk(i) && SwitchOk(i.cache, c)
    ensures var (i1, c1) := OnError(p, i, c, poll);
      var error := BatteryError(i, poll);
      && TemperOk(i1) && SwitchOk(i1.cache, c1)
      && i1 == (if error then Cleared(i) else i).(cache := i1.cache)
      && (i1.cache.chargeStart == 0 <==> i.cache.chargeStart == 0 || (error && !p.standever))
  {
    ControlKeepsRecord(p, Cleared(i), c, 0, 0, poll.now, poll.statusAfter);
  }

  lemma DecideKeepsSwitchIff(p: Params, i: Info, c: Charger, poll: Poll)
    requires TemperOk(i) && SwitchOk(i.cache, c) && poll.now > 0 && i.cable == poll.cable != NoCable
    ensures var (i', c') := Decide(p, i, c, poll);
      SwitchOk(i'.cache, c') <==>
        !(!Temper(p, i, poll).temperState && i.cache.realState == Full && !RealFull(p, poll)
          && i.cache.chargeStart == 0 && (!HasCurrent(p, i, poll) || WaitsAfterRestart(p, i, poll)))
  {
    var t := Temper(p, i, poll);
    ControlKeepsRecord(p, t, c, 0, 0, poll.now, poll.statusAfter);
    if !t.temperState {
      ResumeKeepsSwitchIff(p, t, c, poll);
    }
  }

  lemma ResumeKeepsSwitchIff(p: Params, t: Info, c: Charger, poll: Poll)
    requires SwitchOk(t.cache, c) && poll.now > 0 && t.cable == poll.cable != NoCable
    ensures var (i', c') := Resume(p, t, c, poll);
      SwitchOk(i'.cache, c') <==>
        !(t.cache.realState == Full && !RealFull(p, poll) && t.cache.chargeStart == 0
          && (!HasCurrent(p, t, poll) || WaitsAfterRestart(p, t, poll)))
  {
    var (f, c1, full) := FullCond(p, t, c, poll);
    if t.cache.realState == Full && !RealFull(p, poll) {
      ContinueKeepsSwitchIff(p, f, c1, poll);
      assert WaitsAfterRestart(p, t, poll) == (f.rechargePhase && !Recharge(p, f, poll));
    } else {
      SwitchKeptWithoutRestart(p, t, c, poll);
    }
  }

  lemma SwitchKeptWithoutRestart(p: Params, t: Info, c: Charger, poll: Poll)
    requires SwitchOk(t.cache, c) && poll.now > 0 && t.cable == poll.cable != NoCable
    requires t.cache.realState == Full ==> RealFull(p, poll)
    ensures var (i', c') := Resume(p, t, c, poll); SwitchOk(i'.cache, c')
  {
    var (f, c1, full) := FullCond(p, t, c, poll);
    if full {
      ControlKeepsRecord(p, f, c1, 0, KEEP_CURR, poll.now, poll.statusAfter);
    } else {
      ContinueKeepsSwitchIff(p, f, c1, poll);
    }
  }

  /** From a charger that is on without a start time, or a right record. */
  lemma ContinueKeepsSwitchIff(p: Params, f: Info, c: Charger, poll: Poll)
    requires RecordOk(f.cache, c) && poll.now > 0 && f.cable == poll.cable != NoCable
    ensures var (i', c') := Continue(p, f, c, poll);
      && (SwitchOk(i'.cache, c') <==>
            !(c.charging && f.cache.chargeStart == 0
              && (!HasCurrent(p, f, poll) || (f.rechargePhase && !Recharge(p, f, poll)))))
      && (f.cache.chargeStart == 0 && !f.rechargePhase ==> (c'.charging <==> c.charging || HasCurrent(p, f, poll)))
  {
    var (chg, inn) := CableCurrents(p, f.cable, poll);
    ControlKeepsRecord(p, f, c, 0, 0, poll.now, poll.statusAfter);
    ControlKeepsRecord(p, f, c, chg, inn, poll.now, poll.statusAfter);
  }

  /** An input that shows it: a full battery waits to be recharged, switched off, and the charger says
      full once more while the voltage is not low enough. The restart leaves the charger on, and a stop
      for the temperature at the next poll programs both currents to 0 but does not switch it off. */
  lemma RestartedChargerOutlivesStop(p: Params, i: Info, c: Charger, poll: Poll, hot: Poll)
    requires TemperOk(i) && !i.temperState && RegistersOk(c)
    requires i.rechargePhase && i.cache.chargeStart == 0 && !c.charging
    requires Undisturbed(poll) && !BatteryError(i, poll) && poll.status == Full && !RealFull(p, poll)
    requires poll.vcell >= p.rechargeVcell
    requires Undisturbed(hot) && !BatteryError(i, hot)
    requires hot.status == Charging && hot.temper >= InForce(p, hot).ovhStop
    ensures var (i1, c1) := Monitor(p, i, c, poll);
      var (i2, c2) := Monitor(p, i1, c1, hot);
      && c1.charging && i1.cache.chargeStart == 0
      && i2.temperState && ProgrammedOff(c2) && c2.charging
  {
    var (i1, c1) := Monitor(p, i, c, poll);
    assert c1 == c.(charging := true) && !i1.temperState;
    RunningPoll(p, i1, c1, hot);
  }

  // ----- battery errors -----

  /** What has to come together for a poll to charge although it saw a battery error: readings that
      find the battery and a cable, and no stop for the temperature; then the charger says full against
      the gauge and is restarted, or it does not count as full and there is a current to program. */
  predicate ChargesAgain(p: Params, i: Info, poll: Poll) {
    var th := InForce(p, poll);
    && poll.present && !poll.slate && poll.cable != NoCable
    && !(poll.status == Charging && (poll.temper >= th.ovhStop || poll.temper <= th.frzStop))
    && (if poll.status == Full && !RealFull(p, poll) then true
        else if poll.status == Full && (!p.twoStep || poll.fullTimer) then false
        else HasCurrent(p, i, poll))
  }

  /** A battery error - no battery, or bad health - does not keep charging off: the poll that switches
      it off goes on, and charges again before it ends exactly if nothing else stops it. */
  lemma ErrorChargesAgainIff(p: Params, i: Info, c: Charger, poll: Poll)
    requires SwitchOk(i.cache, c) && poll.now > 0
    requires !poll.testMode && BatteryError(i, poll) && !p.standever
    ensures !OnError(p, i, c, poll).1.charging
    ensures Monitor(p, i, c, poll).1.charging <==> ChargesAgain(p, i, poll)
  {
    ControlKeepsRecord(p, Cleared(i), c, 0, 0, poll.now, poll.statusAfter);
    var (i1, c1) := OnError(p, i, c, poll);
    UpdateKeepsRecord(i1, c1, poll);
    var (i2, c2) := Update(i1, c1, poll);
    if i2.present && i2.cable == NoCable {
      ControlKeepsRecord(p, i2, c2, 0, 0, poll.now, poll.statusAfter);
    } else if i2.present {
      var t := Temper(p, i2, poll);
      ControlKeepsRecord(p, t, c2, 0, 0, poll.now, poll.statusAfter);
      ResumeCharges(p, t, c2, poll);
    }
  }

  /** Whether a poll charges, from a charger that is off and a battery that waits for nothing. */
  lemma ResumeCharges(p: Params, t: Info, c: Charger, poll: Poll)
    requires t.cable == poll.cable != NoCable && !c.charging && t.cache.chargeStart == 0 && !t.rechargePhase
    requires poll.now > 0
    ensures Resume(p, t, c, poll).1.charging <==>
      if t.cache.realState == Full && !RealFull(p, poll) then true
      else if t.cache.realState == Full && (!p.twoStep || poll.fullTimer) then false
      else HasCurrent(p, t, poll)
  {
    var (f, c1, full) := FullCond(p, t, c, poll);
    if full {
      ControlKeepsRecord(p, f, c1, 0, KEEP_CURR, poll.now, poll.statusAfter);
    } else {
      ContinueKeepsSwitchIff(p, f, c1, poll);
    }
  }

  /** For example with mains attached; the charge current is then fully programmed. */
  lemma HealthErrorChargesAgain(p: Params, i: Info, c: Charger, poll: Poll)
    requires TemperOk(i) && RegistersOk(c) && SoftOk(c) && SwitchOk(i.cache, c) && p.inLimit <= MAX_LIMIT_MA
    requires Undisturbed(poll) && poll.cable == Mains && !p.standever && !i.siop
    requires !i.temperState && poll.healthBad && poll.status != Charging && poll.status != Full && poll.now > 0
    requires 0 < p.chgTa <= 2133
    ensures BatteryError(i, poll)
    ensures Monitor(p, i, c, poll).1.charging
    ensures Monitor(p, i, c, poll).1.cnfg02.code == ChargeCode(p.chgTa)
  {
    var (i1, c1) := OnError(p, i, c, poll);
    ErrorKeepsRegisters(p, Cleared(i), c, poll);
    var (i2, c2) := Update(i1, c1, poll);
    assert Monitor(p, i, c, poll) == Control(p, i2, c2, p.chgTa, p.inLimit, poll.now, poll.statusAfter);
    ControlProgramsTheRegisters(p, i2, c2, p.chgTa, p.inLimit, poll.now, poll.statusAfter);
  }

  lemma ErrorKeepsRegisters(p: Params, i: Info, c: Charger, poll: Poll)
    requires RegistersOk(c) && SoftOk(c)
    ensures var (i', c') := Off(p, i, c, poll);
      RegistersOk(c') && SoftOk(c') && (SwitchOk(i.cache, c) ==> SwitchOk(i'.cache, c'))
  {
    OrWithNothing(c.cnfg02.otg);
  }

  // ----- what a poll programs, in the board's numbers -----

  /** What a poll takes from its readings: in slate mode no cable counts; the currents are those of the
      registers; and the temperature is not taken over from a gauge that seems to be off. A detached cable
      ends soft regulation. */
  lemma ReadingsTaken(i: Info, c: Charger, poll: Poll)
    ensures var (u, d) := Update(i, c, poll);
      var cable := if poll.slate then NoCable else poll.cable;
      && u.cable == cable && u.present == poll.present && u.cache.realState == poll.status
      && u.cache.inputCurrent == c.limit * 20 && u.cache.chargeCurrent == c.cnfg02.code * 333 / 10
      && u.cache.chargeStart == i.cache.chargeStart
      && u.temper == (if cable != NoCable && !poll.present && poll.counted then i.temper else poll.temper)
      && u == i.(cable := u.cable, present := u.present, cache := u.cache, temper := u.temper)
      && d == c.(softReg := c.softReg && (poll.slate || poll.cable != NoCable))
  {
  }

  /** The thresholds of low-power mode come first, then those of an event, but both only on boards of
      the CTIA kind. */
  lemma ThresholdsInForce(p: Params, poll: Poll)
    ensures !p.ctia ==> InForce(p, poll) == p.normal
    ensures p.ctia && poll.lpm ==> InForce(p, poll) == p.lpm
    ensures p.ctia && !poll.lpm && poll.eventOn ==> InForce(p, poll) == p.event
    ensures p.ctia && !poll.lpm && !poll.eventOn ==> InForce(p, poll) == p.normal
  {
  }

  /** A poll that finds nothing wrong: the battery is there and healthy, not stopped and not too hot or
      too cold, and the charger does not say full. */
  predicate Healthy(p: Params, i: Info, poll: Poll) {
    && !poll.testMode && (poll.jig || poll.presentNow) && !poll.healthBad && poll.present && !poll.slate
    && !i.temperState && !i.overheated && !i.freezed && poll.status != Full
    && (poll.status == Charging ==>
          poll.temper < InForce(p, poll).ovhStop && poll.temper > InForce(p, poll).frzStop)
  }

  /** The charge has gone on for longer than `most`. A USB port and a battery that was full once have no
      time limit, and neither has a charger that was not switched on. */
  predicate TooLong(i: Info, poll: Poll, most: nat) {
    && poll.cable != Usb && i.fullState == NotFull && i.cache.chargeStart != 0
    && (poll.now - i.cache.chargeStart) % 0x1_0000_0000 > most
  }

  lemma HealthyPoll(p: Params, i: Info, c: Charger, poll: Poll)
    requires Healthy(p, i, poll) && poll.cable != NoCable
    ensures var u := Update(i, c, poll).0;
      && Update(i, c, poll).1 == c
      && Monitor(p, i, c, poll) == Continue(p, u, c, poll)
      && u == i.(cable := poll.cable, present := true, temper := poll.temper, cache := u.cache)
      && u.cache.chargeStart == i.cache.chargeStart && u.cache.realState == poll.status
      && (RegistersOk(c) ==> Coherent(u.cache, c))
  {
    var u := Update(i, c, poll).0;
    assert Temper(p, u, poll) == u;
  }

  /** A charge current under the cap of the thermal governor, if it caps. */
  function UnderCap(p: Params, i: Info, chg: nat): nat {
    var most := if i.siopLv == 1 then p.siopLv1 else if i.siopLv == 2 then p.siopLv2
                else if i.siopLv == 3 then p.siopLv3 else p.chgUsb;
    if i.siop && most < chg then most else chg
  }

  /** A charge current of `chg` mA and an input limit of `inn` mA, at most the board's limit, are
      programmed; where `switched` tells that the switch record was right, the charger is on exactly for
      a current. */
  predicate Programmed(p: Params, i: Info, c: Charger, switched: bool, chg: nat, inn: nat) {
    && c.cnfg02.code == UnderCap(p, i, chg) * 3 / 100
    && c.limit == (if inn < p.inLimit then inn else p.inLimit) / 20
    && (switched ==> (c.charging <==> UnderCap(p, i, chg) != 0))
  }

  /** The currents that a healthy poll programs, cable by cable: mains and docks their own, USB ports the
      same current for charging and input, an unknown cable none of its own. A battery that waits to be
      recharged has to be low, and no charge may have gone on for too long. */
  lemma CablePrograms(p: Params, i: Info, c: Charger, poll: Poll)
    requires Healthy(p, i, poll) && poll.cable != NoCable && RegistersOk(c) && SoftOk(c) && !c.softReg
    requires p.inLimit <= MAX_LIMIT_MA
    requires !TooLong(i, poll, if i.rechargePhase then p.rechargeDuration else p.chargeDuration)
    requires i.rechargePhase ==> poll.status != Charging && poll.vcell < p.rechargeVcell
    requires p.chgTa <= 2133 && p.chgUsb <= 2133 && p.chgCdp <= 2133 && poll.dockCurrent <= 2133
    ensures var c' := Monitor(p, i, c, poll).1;
      var switched := SwitchOk(i.cache, c) && poll.now > 0;
      && (poll.cable == Mains ==> Programmed(p, i, c', switched, p.chgTa, p.inLimit))
      && (poll.cable == Usb ==> Programmed(p, i, c', switched, p.chgUsb, p.chgUsb))
      && (poll.cable == UsbCdp ==> Programmed(p, i, c', switched, p.chgCdp, p.chgCdp))
      && (poll.cable == Dock ==> Programmed(p, i, c', switched, poll.dockCurrent, poll.dockCurrent))
      && (poll.cable == OtherCable ==> c' == c)
  {
    ReachesChargeOk(p, i, c, poll);
    var u := Update(i, c, poll).0;
    if poll.cable != OtherCable {
      var (chg, inn) := CableCurrents(p, poll.cable, poll);
      CappedOutcome(p, u, chg);
      assert Capped(p, u, chg) == UnderCap(p, i, chg);
      ControlProgramsTheRegisters(p, u, c, chg, inn, poll.now, poll.statusAfter);
    }
  }

  lemma ReachesChargeOk(p: Params, i: Info, c: Charger, poll: Poll)
    requires Healthy(p, i, poll) && poll.cable != NoCable && RegistersOk(c)
    requires !TooLong(i, poll, if i.rechargePhase then p.rechargeDuration else p.chargeDuration)
    requires i.rechargePhase ==> poll.status != Charging && poll.vcell < p.rechargeVcell
    ensures var u := Update(i, c, poll).0;
      && Monitor(p, i, c, poll) == ChargeOk(p, u, c, poll)
      && u == i.(cable := poll.cable, present := true, temper := poll.temper, cache := u.cache)
      && u.cache.chargeStart == i.cache.chargeStart && Coherent(u.cache, c)
  {
    HealthyPoll(p, i, c, poll);
  }

  /** Without a cable a poll programs both currents to 0 and forgets what it was about. */
  lemma NoCablePrograms(p: Params, i: Info, c: Charger, poll: Poll)
    requires Healthy(p, i, poll) && poll.cable == NoCable && RegistersOk(c)
    ensures var (i', c') := Monitor(p, i, c, poll);
      && c'.cnfg02.code == 0 && c'.limit == 0
      && !i'.temperState && !i'.rechargePhase && i'.fullState == NotFull
  {
    var (u, c1) := Update(i, c, poll);
    OffReachesTheRegisters(p, u, c1, poll.now, poll.statusAfter);
  }

  /** A charge that has gone on for too long, first or when recharging, is switched off, and the battery
      then waits to be recharged; a charge that has not is left to go on. */
  lemma TimeLimit(p: Params, i: Info, c: Charger, poll: Poll)
    requires Healthy(p, i, poll) && poll.cable != NoCable && RegistersOk(c)
    ensures var (i', c') := Monitor(p, i, c, poll);
      var late := TooLong(i, poll, if i.rechargePhase then p.rechargeDuration else p.chargeDuration);
      && (late ==> c'.cnfg02.code == 0 && c'.limit == 0 && i'.cache.chargeStart == 0)
      && (i'.rechargePhase <==> late || i.rechargePhase)
  {
    HealthyPoll(p, i, c, poll);
    var u := Update(i, c, poll).0;
    if Abstimer(p, u, poll.now) {
      OffReachesTheRegisters(p, u, c, poll.now, poll.statusAfter);
    }
  }

  /** A battery that waits to be recharged is left alone until it is not charging and its voltage is
      below the board's. */
  lemma WaitsForRecharge(p: Params, i: Info, c: Charger, poll: Poll)
    requires Healthy(p, i, poll) && poll.cable != NoCable && i.rechargePhase
    requires !TooLong(i, poll, p.rechargeDuration)
    requires poll.status == Charging || poll.vcell >= p.rechargeVcell
    ensures var (i', c') := Monitor(p, i, c, poll);
      c' == c && i'.rechargePhase && i'.cache.chargeStart == i.cache.chargeStart
  {
    HealthyPoll(p, i, c, poll);
  }

  /** A battery is full if the charger says so, the gauge shows more than 95 percent, and the voltage is
      above the board's; in two steps if the board asks for them. Charging then stops, the input limit
      stays, and the battery waits to be recharged. */
  lemma FullPoll(p: Params, i: Info, c: Charger, poll: Poll)
    requires Undisturbed(poll) && !poll.healthBad && !i.temperState && !i.overheated && !i.freezed
    requires poll.status == Full && RegistersOk(c)
    requires poll.vcell > p.fullVcell && poll.soc >= 96
    requires !p.twoStep || poll.fullTimer
    ensures var (i', c') := Monitor(p, i, c, poll);
      c'.cnfg02.code == 0 && c'.limit == c.limit && i'.rechargePhase && i'.fullState != NotFull
  {
    var u := Update(i, c, poll).0;
    assert Temper(p, u, poll) == u;
    var (f, c1, full) := FullCond(p, u, c, poll);
    assert full && c1 == c && Coherent(f.cache, c);
    OffCharge(f.cache, c);
  }

  /** A charger that is switched off but says full against the gauge is on after the poll. */
  lemma NotReallyFull(p: Params, i: Info, c: Charger, poll: Poll)
    requires Undisturbed(poll) && !poll.healthBad && !i.temperState && !i.overheated && !i.freezed
    requires poll.status == Full && (poll.vcell <= p.fullVcell || poll.soc <= 95)
    requires i.cache.chargeStart == 0
    ensures Monitor(p, i, c, poll).1.charging
  {
    var u := Update(i, c, poll).0;
    assert Temper(p, u, poll) == u;
    var (f, c1, full) := FullCond(p, u, c, poll);
    var (chg, inn) := CableCurrents(p, f.cable, poll);
    ControlKeepsRecord(p, f, c1, chg, inn, poll.now, poll.statusAfter);
  }
}
