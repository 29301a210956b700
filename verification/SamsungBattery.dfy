/** The battery driver as an object that drives the charger object, proved against modules
    ChargeControl and BatteryMonitor. */
module SamsungBattery {
  import opened Max77693
  import opened ChargeControl
  import opened BatteryMonitor

  class BatteryInfo {
    const pdata: Params
    const charger: ChargerData

    var cable: Cable
    var siop: bool
    var siopLv: nat
    var cache: Cache
    var present: bool
    var temper: int
    var temperState: bool
    var overheated: bool
    var freezed: bool
    var rechargePhase: bool
    var fullState: FullState

    ghost function View(): Info
      reads this
    {
      Info(cable, siop, siopLv, cache, present, temper,
           temperState, overheated, freezed, rechargePhase, fullState)
    }

    constructor (pdata: Params, charger: ChargerData)
      ensures this.pdata == pdata && this.charger == charger
      ensures TemperOk(View()) && !View().temperState && View().cable == NoCable
    {
      this.pdata, this.charger := pdata, charger;
      cable, siop, siopLv := NoCable, false, 0;
      cache := Cache(0, 0, 0, Unknown);
      present, temper := false, 0;
      temperState, overheated, freezed, rechargePhase := false, false, false, false;
      fullState := NotFull;
    }

    /** The part of battery_charge_control that caps the charge current. */
    method CapCharge(chg: nat) returns (capped: nat)
      ensures capped == Capped(pdata, View(), chg)
    {
      capped := chg;
      if cable != NoCable && chg > 0 && siop {
        var most := pdata.chgUsb;
        if siopLv == 1 {
          most := pdata.siopLv1;
        } else if siopLv == 2 {
          most := pdata.siopLv2;
        } else if siopLv == 3 {
          most := pdata.siopLv3;
        }
        if most < capped {
          capped := most;
        }
      }
    }

    method ControlInputCurrent(inn: nat)
      modifies `cache, charger
      ensures (cache, charger.View()) == ControlInput(pdata, old(cache), old(charger.View()), inn)
    {
      if inn == KEEP_CURR {
        return;
      }
      var ma := if inn <= pdata.inLimit then inn else pdata.inLimit;
      if cache.inputCurrent == ma / 20 * 20 {
        return;
      }
      charger.SetInputCurrent(ma);
      var readBack := charger.GetInputCurrent();
      cache := cache.(inputCurrent := readBack);
    }

    method ControlChargeCurrent(chg: nat)
      modifies `cache, charger
      ensures (cache, charger.View()) == ControlCharge(old(cache), old(charger.View()), chg)
    {
      if chg == KEEP_CURR || cache.chargeCurrent == chg * 3 / 100 * 333 / 10 {
        return;
      }
      charger.SetChargeCurrent(chg);
      var readBack := charger.GetChargeCurrent();
      cache := cache.(chargeCurrent := readBack);
    }

    method ControlChargeState(chg: nat, now: nat, status: Status)
      modifies `cache, charger
      ensures (cache, charger.View()) == ControlSwitch(old(cache), old(charger.View()), chg, now, status)
    {
      if chg != 0 && cache.chargeStart == 0 {
        charger.SetChargerState(true);
        cache := cache.(chargeStart := now);
        cache := cache.(realState := status);
      } else if chg == 0 && cache.chargeStart != 0 {
        charger.SetChargerState(false);
        cache := cache.(chargeStart := 0);
        cache := cache.(realState := status);
      }
    }

    /** battery_charge_control. */
    method ChargeControl(chg: nat, inn: nat, now: nat, status: Status)
      modifies `cache, charger
      ensures (View(), charger.View()) ==
              Control(pdata, old(View()), old(charger.View()), chg, inn, now, status)
    {
      var capped := CapCharge(chg);
      ControlInputCurrent(inn);
      ControlChargeCurrent(capped);
      ControlChargeState(capped, now, status);
    }

    /** battery_temper_cond. */
    method TemperCond(poll: Poll) returns (stopped: bool)
      modifies `temperState, `overheated, `freezed
      ensures View() == Temper(pdata, old(View()), poll) && stopped == temperState
    {
      var th := if pdata.ctia && poll.lpm then pdata.lpm
                else if pdata.ctia && poll.eventOn then pdata.event
                else pdata.normal;
      if !temperState {
        if cache.realState != Charging {
          return false;
        }
        if temper >= th.ovhStop {
          overheated := true;
        } else if temper <= th.frzStop {
          freezed := true;
        }
      } else {
        if overheated && temper <= th.ovhRecover {
          overheated := false;
        } else if freezed && temper >= th.frzRecover {
          freezed := false;
        }
      }
      if overheated {
        freezed := false;
        temperState := true;
      } else if freezed {
        overheated := false;
        temperState := true;
      } else {
        temperState := false;
      }
      stopped := temperState;
    }

    /** battery_update_info, as far as charging depends on it. */
    method UpdateInfo(poll: Poll)
      requires charger.cnfg02.code < 64
      modifies `cable, `cache, `present, `temper, charger
      ensures (View(), charger.View()) == Update(old(View()), old(charger.View()), poll)
    {
      if poll.slate {
        cable := NoCable;
      } else {
        cable := poll.cable;
        if cable == NoCable {
          charger.CableDetached();
        }
      }
      cache := cache.(realState := poll.status);
      present := poll.present;
      var chargeMa := charger.GetChargeCurrent();
      var inputMa := charger.GetInputCurrent();
      cache := cache.(chargeCurrent := chargeMa, inputCurrent := inputMa);
      if cable != NoCable && !present && poll.counted {
        return;
      }
      temper := poll.temper;
    }

    method ClearScenario()
      modifies `temperState, `overheated, `freezed, `rechargePhase, `fullState
      ensures View() == Cleared(old(View()))
    {
      fullState := NotFull;
      overheated, freezed, temperState, rechargePhase := false, false, false, false;
    }

    /** The label charge_ok: charge as the cable allows. */
    method ChargeByCable(poll: Poll)
      modifies this, charger
      ensures (View(), charger.View()) == ChargeOk(pdata, old(View()), old(charger.View()), poll)
    {
      match cable {
        case NoCable =>
          ChargeControl(0, 0, poll.now, poll.statusAfter);
          ClearScenario();
        case Mains => ChargeControl(pdata.chgTa, pdata.inLimit, poll.now, poll.statusAfter);
        case Usb => ChargeControl(pdata.chgUsb, pdata.chgUsb, poll.now, poll.statusAfter);
        case UsbCdp => ChargeControl(pdata.chgCdp, pdata.chgCdp, poll.now, poll.statusAfter);
        case Dock => ChargeControl(poll.dockCurrent, poll.dockCurrent, poll.now, poll.statusAfter);
        case OtherCable =>
      }
    }

    /** battery_fullcharged_cond. */
    method FullchargedCond(poll: Poll) returns (full: bool)
      modifies `cache, `fullState, charger
      ensures (View(), charger.View(), full) == FullCond(pdata, old(View()), old(charger.View()), poll)
    {
      if cache.realState != Full {
        return false;
      }
      if poll.vcell > pdata.fullVcell && poll.soc > 95 {
        if pdata.twoStep {
          fullState := if poll.fullTimer then SecondFull else FirstFull;
          return poll.fullTimer;
        }
        fullState := FirstFull;
        return true;
      }
      charger.SetChargerState(false);
      charger.SetChargerState(true);
      cache := cache.(realState := poll.restarted);
      full := false;
    }

    /** battery_abstimer_cond. */
    method AbstimerCond(now: nat) returns (late: bool)
      ensures late == Abstimer(pdata, View(), now)
    {
      if cable == Usb || fullState != NotFull || cache.chargeStart == 0 {
        return false;
      }
      var duration := if rechargePhase then pdata.rechargeDuration else pdata.chargeDuration;
      late := (now - cache.chargeStart) % 0x1_0000_0000 > duration;
    }

    method RechargeCond(poll: Poll) returns (low: bool)
      ensures low == Recharge(pdata, View(), poll)
    {
      if cache.realState == Charging {
        return false;
      }
      low := poll.vcell < pdata.rechargeVcell;
    }

    /** The conditions checked while a cable is attached, in order. */
    method ChargeScenario(poll: Poll)
      modifies this, charger
      ensures (View(), charger.View()) == Decide(pdata, old(View()), old(charger.View()), poll)
    {
      var stopped := TemperCond(poll);
      if stopped {
        ChargeControl(0, 0, poll.now, poll.statusAfter);
        return;
      }
      var full := FullchargedCond(poll);
      if full {
        ChargeControl(0, KEEP_CURR, poll.now, poll.statusAfter);
        rechargePhase := true;
        return;
      }
      var late := AbstimerCond(poll.now);
      if late {
        ChargeControl(0, 0, poll.now, poll.statusAfter);
        rechargePhase := true;
        return;
      }
      if rechargePhase {
        var low := RechargeCond(poll);
        if !low {
          return;
        }
      }
      ChargeByCable(poll);
    }

    /** battery_vf_cond, battery_health_cond, and what a battery error leads to. */
    method CheckBattery(poll: Poll)
      requires charger.cnfg02.code < 64
      modifies this, charger
      ensures (View(), charger.View()) == OnError(pdata, old(View()), old(charger.View()), poll)
      ensures charger.cnfg02.code < 64
    {
      var error := !poll.jig && !poll.presentNow;
      if !error && !temperState {
        error := poll.healthBad;
      }
      if error {
        ClearScenario();
        if !pdata.standever {
          ChargeControl(0, 0, poll.now, poll.statusAfter);
        }
      }
    }

    /** battery_monitor_work. */
    method MonitorWork(poll: Poll)
      requires charger.cnfg02.code < 64 && TemperOk(View())
      modifies this, charger
      ensures (View(), charger.View()) == Monitor(pdata, old(View()), old(charger.View()), poll)
      ensures TemperOk(View())
    {
      MonitorKeepsTemperOk(pdata, View(), charger.View(), poll);
      if poll.testMode {
        return;
      }
      CheckBattery(poll);
      UpdateInfo(poll);
      if !present {
        return;
      }
      if cable == NoCable {
        ChargeByCable(poll);
      } else {
        ChargeScenario(poll);
      }
    }
  }
}
