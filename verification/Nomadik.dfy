/** The Nomadik driver: its bank table and backup array updated in place, each method proved against
    modules NomadikBank, NomadikIrq and NomadikPins. */
module Nomadik {
  import opened Common
  import opened NomadikBank
  import opened NomadikIrq
  import opened NomadikPins

  /** The banks as they are at a moment while IOFORCE is high, and the pin being switched. */
  datatype Snapshot = Snapshot(banks: Banks, bank: nat, offset: nat)

  /** What the safe sequence promises of such a moment: in every bank that the driver walks over,
      exactly the alternate-C pins of the list have their sleep bit 0; the pin being switched is one
      of them; both its wake masks are cleared and every other wake mask is untouched. */
  predicate Safe(bs: Banks, cfgs: seq<PinCfg>, s: Snapshot) {
    && |s.banks| == |bs| && s.bank < |bs| && s.banks[s.bank].Some? && bs[s.bank].Some?
    && (forall i | 0 <= i < FirstGap(bs) ::
          s.banks[i].Some? && s.banks[i].value.slpc == ALL - AltCPins(cfgs, i))
    && s.offset in AltCPins(cfgs, s.bank)
    && s.banks[s.bank].value.rwimsc == bs[s.bank].value.rwimsc - {s.offset}
    && s.banks[s.bank].value.fwimsc == bs[s.bank].value.fwimsc - {s.offset}
    && (forall i | 0 <= i < |bs| && i != s.bank && bs[i].Some? ::
          && s.banks[i].Some?
          && s.banks[i].value.rwimsc == bs[i].value.rwimsc
          && s.banks[i].value.fwimsc == bs[i].value.fwimsc)
  }

  /** A bank with the wake masks of a pin cleared. */
  function Quieted(b: Bank, o: nat): Bank {
    b.(rwimsc := b.rwimsc - {o}, fwimsc := b.fwimsc - {o})
  }

  /** The moments with IOFORCE high while a pin is switched: before, between and after the writes of the
      two mode registers. */
  function Moments(bs: Banks, k: nat, o: nat, alt: Alt): seq<Snapshot>
    requires k < |bs| && bs[k].Some?
  {
    var quiet := Quieted(bs[k].value, o);
    [Snapshot(bs[k := Some(quiet)], k, o),
     Snapshot(bs[k := Some(quiet.(afsla := SetMode(quiet, o, alt).afsla))], k, o),
     Snapshot(bs[k := Some(SetMode(quiet, o, alt))], k, o)]
  }

  lemma MomentsAre(bs: Banks, k: nat, o: nat, alt: Alt)
    requires k < |bs| && bs[k].Some?
    ensures var qs := bs[k := Some(Quieted(bs[k].value, o))];
      var q := qs[k].value;
      [Snapshot(qs, k, o)] + [Snapshot(qs[k := Some(q.(afsla := SetMode(q, o, alt).afsla))], k, o),
                              Snapshot(qs[k := Some(SetMode(q, o, alt))], k, o)]
      == Moments(bs, k, o, alt)
  {
    var qs := bs[k := Some(Quieted(bs[k].value, o))];
    var q := qs[k].value;
    assert qs[k := Some(SetMode(q, o, alt))] == bs[k := Some(SetMode(q, o, alt))];
    assert qs[k := Some(q.(afsla := SetMode(q, o, alt).afsla))] ==
      bs[k := Some(q.(afsla := SetMode(q, o, alt).afsla))];
  }

  class NmkGpio {
    const banks: array<Option<Bank>>
    const slpm: array<Mask>
    var ioforce: bool
    ghost var forced: seq<Snapshot>

    constructor (n: nat)
      ensures fresh(banks) && fresh(slpm) && banks.Length == slpm.Length == n && !ioforce && forced == []
      ensures forall i | 0 <= i < n :: banks[i] == None
    {
      banks := new Option<Bank>[n](_ => None);
      slpm := new Mask[n](_ => {});
      ioforce, forced := false, [];
    }

    // ----- interrupts -----

    method IrqModify(k: nat, o: nat, which: Which, enable: bool)
      requires k < banks.Length && banks[k].Some?
      modifies banks
      ensures banks[..] == old(banks[..])[k := Some(Modify(old(banks[k]).value, o, which, enable))]
    {
      var b := banks[k].value;
      if o in b.rising {
        if which == Wake {
          b := b.(rwimsc := if enable then b.rwimsc + {o} else b.rwimsc - {o});
        } else {
          b := b.(rimsc := if enable then b.rimsc + {o} else b.rimsc - {o});
        }
      }
      if o in b.falling {
        if which == Wake {
          b := b.(fwimsc := if enable then b.fwimsc + {o} else b.fwimsc - {o});
        } else {
          b := b.(fimsc := if enable then b.fimsc + {o} else b.fimsc - {o});
        }
      }
      banks[k] := Some(b);
    }

    method SetSlpm(k: nat, o: nat, noChange: bool)
      requires k < banks.Length && banks[k].Some?
      modifies banks
      ensures var b := old(banks[k]).value;
        banks[..] == old(banks[..])[k := Some(b.(slpc := Put(b.slpc, o, noChange)))]
    {
      var slpc := banks[k].value.slpc;
      if noChange {
        slpc := slpc + {o};
      } else {
        slpc := slpc - {o};
      }
      banks[k] := Some(banks[k].value.(slpc := slpc));
    }

    method SetWakeRegs(k: nat, o: nat, on: bool)
      requires k < banks.Length && banks[k].Some?
      modifies banks
      ensures banks[..] == old(banks[..])[k := Some(WriteWake(old(banks[k]).value, o, on))]
    {
      if banks[k].value.sleepmode {
        SetSlpm(k, o, !on);
      }
      IrqModify(k, o, Wake, on);
    }

    method IrqMaskUnmask(k: nat, o: nat, enable: bool) returns (status: int)
      requires k < banks.Length && o < 32
      modifies banks
      ensures if old(banks[k]).None? then status == -EINVAL && banks[..] == old(banks[..])
              else && status == 0
                   && banks[..] == old(banks[..])[k := Some(WriteMaskUnmask(old(banks[k]).value, o, enable))]
      ensures old(banks[k]).Some? && IrqOk(old(banks[k]).value) ==>
        banks[k] == Some(MaskUnmask(old(banks[k]).value, o, enable))
    {
      if banks[k].None? {
        return -EINVAL;
      }
      var b := banks[k].value;
      if IrqOk(b) {
        MaskUnmaskFollows(b, o, enable);
      }
      banks[k] := Some(b.(enabled := if enable then b.enabled + {o} else b.enabled - {o}));
      IrqModify(k, o, Normal, enable);
      if o !in banks[k].value.realWake {
        SetWakeRegs(k, o, enable);
      }
      status := 0;
    }

    method IrqSetWake(k: nat, o: nat, on: bool) returns (status: int)
      requires k < banks.Length && o < 32
      modifies banks
      ensures if old(banks[k]).None? then status == -EINVAL && banks[..] == old(banks[..])
              else && status == 0
                   && banks[..] == old(banks[..])[k := Some(WriteSetWake(old(banks[k]).value, o, on))]
      ensures old(banks[k]).Some? && IrqOk(old(banks[k]).value) ==>
        banks[k] == Some(SetWake(old(banks[k]).value, o, on))
    {
      if banks[k].None? {
        return -EINVAL;
      }
      if IrqOk(banks[k].value) {
        SetWakeFollows(banks[k].value, o, on);
      }
      if o !in banks[k].value.enabled {
        SetWakeRegs(k, o, on);
      }
      var b := banks[k].value;
      banks[k] := Some(b.(realWake := if on then b.realWake + {o} else b.realWake - {o}));
      status := 0;
    }

    /** `wake` is genirq's own wakeup flag of the interrupt. */
    method IrqSetType(k: nat, o: nat, t: IrqType, wake: bool) returns (status: int)
      requires k < banks.Length && o < 32
      modifies banks
      ensures if old(banks[k]).None? then status == -EINVAL && banks[..] == old(banks[..])
              else && status == WriteSetType(old(banks[k]).value, o, t, wake).1
                   && banks[..] == old(banks[..])[k := Some(WriteSetType(old(banks[k]).value, o, t, wake).0)]
      ensures old(banks[k]).Some? && IrqOk(old(banks[k]).value) && (wake <==> o in old(banks[k]).value.realWake) ==>
        banks[k] == Some(SetType(old(banks[k]).value, o, t).0)
    {
      if banks[k].None? || t.high || t.low {
        return -EINVAL;
      }
      if IrqOk(banks[k].value) {
        SetTypeFollows(banks[k].value, o, t);
      }
      var enabled := o in banks[k].value.enabled;
      if enabled {
        IrqModify(k, o, Normal, false);
      }
      if enabled || wake {
        IrqModify(k, o, Wake, false);
      }
      banks[k] := Some(banks[k].value.(rising := Put(banks[k].value.rising, o, t.rising),
                                       falling := Put(banks[k].value.falling, o, t.falling)));
      if enabled {
        IrqModify(k, o, Normal, true);
      }
      if enabled || wake {
        IrqModify(k, o, Wake, true);
      }
      status := 0;
    }

    // ----- suspend and resume -----

    method WakeupsSuspend()
      modifies banks
      ensures forall i | 0 <= i < banks.Length ::
        banks[i] == if i < FirstGap(old(banks[..])) then Some(SuspendBank(old(banks[i]).value)) else old(banks[i])
    {
      ghost var bs := banks[..];
      var i := 0;
      while i < banks.Length
        invariant 0 <= i <= FirstGap(bs)
        invariant forall j | 0 <= j < i :: banks[j] == Some(SuspendBank(bs[j].value))
        invariant forall j | i <= j < banks.Length :: banks[j] == bs[j]
      {
        if banks[i].None? {
          break;
        }
        var b := banks[i].value;
        b := b.(savedRwimsc := b.rwimsc, savedFwimsc := b.fwimsc);
        b := b.(rwimsc := b.savedRwimsc * b.realWake);
        b := b.(fwimsc := b.savedFwimsc * b.realWake);
        if b.sleepmode {
          b := b.(savedSlpm := b.slpc);
          b := b.(slpc := ALL - b.realWake);
        }
        banks[i] := Some(b);
        i := i + 1;
      }
    }

    method WakeupsResume()
      modifies banks
      ensures forall i | 0 <= i < banks.Length ::
        banks[i] == if i < FirstGap(old(banks[..])) then Some(ResumeBank(old(banks[i]).value)) else old(banks[i])
    {
      ghost var bs := banks[..];
      var i := 0;
      while i < banks.Length
        invariant 0 <= i <= FirstGap(bs)
        invariant forall j | 0 <= j < i :: banks[j] == Some(ResumeBank(bs[j].value))
        invariant forall j | i <= j < banks.Length :: banks[j] == bs[j]
      {
        if banks[i].None? {
          break;
        }
        var b := banks[i].value;
        b := b.(rwimsc := b.savedRwimsc, fwimsc := b.savedFwimsc);
        if b.sleepmode {
          b := b.(slpc := b.savedSlpm);
        }
        banks[i] := Some(b);
        i := i + 1;
      }
    }

    /** A suspend and a resume give back every register of every bank, for any number of banks. */
    method SuspendResume()
      modifies banks
      ensures forall i | 0 <= i < banks.Length ::
        && banks[i].Some? == old(banks[i]).Some?
        && (banks[i].Some? ==>
              var b, r := old(banks[i]).value, banks[i].value;
              r == b.(savedRwimsc := r.savedRwimsc, savedFwimsc := r.savedFwimsc, savedSlpm := r.savedSlpm))
    {
      ghost var bs := banks[..];
      WakeupsSuspend();
      SameGap(bs, banks[..]);
      WakeupsResume();
    }

    // ----- pins -----

    /** A register write to a bank while a pin is being switched; `forced` records the banks as they are
        at every moment with IOFORCE high. */
    method WriteBank(k: nat, o: nat, b: Bank)
      requires k < banks.Length
      modifies banks, `forced
      ensures banks[..] == old(banks[..])[k := Some(b)]
      ensures forced == old(forced) + if ioforce then [Snapshot(banks[..], k, o)] else []
    {
      banks[k] := Some(b);
      if ioforce {
        forced := forced + [Snapshot(banks[..], k, o)];
      }
    }

    /** The set_ioforce hook of a chip. */
    method SetIoforce(k: nat, o: nat, high: bool)
      modifies `ioforce, `forced
      ensures ioforce == high
      ensures forced == old(forced) + if high then [Snapshot(banks[..], k, o)] else []
    {
      ioforce := high;
      if high {
        forced := forced + [Snapshot(banks[..], k, o)];
      }
    }

    /** __nmk_gpio_set_mode: first AFSLA, then AFSLB. */
    method SetModeRegs(k: nat, o: nat, alt: Alt)
      requires k < banks.Length && banks[k].Some?
      modifies banks, `forced
      ensures var b := old(banks[k]).value;
        && banks[..] == old(banks[..])[k := Some(SetMode(b, o, alt))]
        && forced == old(forced) +
             if ioforce
             then [Snapshot(old(banks[..])[k := Some(b.(afsla := SetMode(b, o, alt).afsla))], k, o),
                   Snapshot(old(banks[..])[k := Some(SetMode(b, o, alt))], k, o)]
             else []
    {
      ghost var bs := banks[..];
      var b := banks[k].value;
      var afunc, bfunc := b.afsla - {o}, b.afslb - {o};
      if alt == AltA || alt == AltC {
        afunc := afunc + {o};
      }
      if alt == AltB || alt == AltC {
        bfunc := bfunc + {o};
      }
      WriteBank(k, o, b.(afsla := afunc));
      WriteBank(k, o, b.(afsla := afunc, afslb := bfunc));
      assert b.(afsla := afunc, afslb := bfunc) == SetMode(b, o, alt);
      assert banks[..] == bs[k := Some(SetMode(b, o, alt))];
    }

    /** __nmk_gpio_set_mode_safe: IOFORCE is high only while the mode changes. */
    method SetModeSafe(k: nat, o: nat, alt: Alt, glitch: bool)
      requires k < banks.Length && banks[k].Some? && !ioforce
      modifies banks, `ioforce, `forced
      ensures !ioforce
      ensures banks[..] == old(banks[..])[k := Some(SetMode(old(banks[k]).value, o, alt))]
      ensures var b := old(banks[k]).value;
        forced == old(forced) + if glitch && b.hasIoforce then Moments(old(banks[..]), k, o, alt) else []
    {
      ghost var bs := banks[..];
      var b := banks[k].value;
      var rwimsc, fwimsc := b.rwimsc, b.fwimsc;
      if glitch && b.hasIoforce {
        WriteBank(k, o, b.(rwimsc := rwimsc - {o}));
        WriteBank(k, o, b.(rwimsc := rwimsc - {o}, fwimsc := fwimsc - {o}));
        assert banks[..] == bs[k := Some(Quieted(b, o))];
        SetIoforce(k, o, true);
        SetModeRegs(k, o, alt);
        SetIoforce(k, o, false);
        var c := banks[k].value;
        WriteBank(k, o, c.(rwimsc := rwimsc));
        WriteBank(k, o, c.(rwimsc := rwimsc, fwimsc := fwimsc));
        MomentsAre(bs, k, o, alt);
      } else {
        SetModeRegs(k, o, alt);
      }
      assert banks[..] == bs[k := Some(SetMode(b, o, alt))];
    }

    /** The direction, level and pull part of __nmk_config_pin. */
    method ConfigPad(k: nat, cfg: PinCfg, sleep: bool)
      requires k < banks.Length && banks[k].Some?
      modifies banks
      ensures banks[..] == old(banks[..])[k := Some(SetPad(old(banks[k]).value, OffsetOf(cfg.pin), cfg, sleep))]
    {
      var o := OffsetOf(cfg.pin);
      var output, high, pull := cfg.output, cfg.high, cfg.pull;
      if sleep {
        if cfg.sleepPull.Some? {
          pull := cfg.sleepPull.value;
        }
        if cfg.sleepOutput.Some? {
          output := cfg.sleepOutput.value;
        }
        if cfg.sleepHigh.Some? {
          high := cfg.sleepHigh.value;
        }
      }
      if output {
        MakeOutput(k, o, high);
      } else {
        MakeInput(k, o, pull);
      }
    }

    /** __nmk_config_pin. With a backup, the sleep bit goes there instead of to the register. */
    method ConfigPin(k: nat, cfg: PinCfg, sleep: bool, backedUp: bool)
      requires k < banks.Length && banks[k].Some? && slpm.Length == banks.Length && !ioforce
      modifies banks, slpm, `ioforce, `forced
      ensures !ioforce
      ensures var b := old(banks[k]).value;
        banks[..] == old(banks[..])[k := Some(if backedUp then Configure(b, cfg, sleep)
                                              else ConfigureDirect(b, cfg, sleep))]
      ensures slpm[..] == if backedUp
        then old(slpm[..])[k := Put(old(slpm[k]), OffsetOf(cfg.pin), cfg.noChange)] else old(slpm[..])
      ensures |forced| >= |old(forced)| && forced[..|old(forced)|] == old(forced)
      ensures cfg.alt != AltC ==> forced == old(forced)
      ensures backedUp ==> forall i | |old(forced)| <= i < |forced| ::
        Switching(old(banks[..]), forced[i], k, OffsetOf(cfg.pin))
    {
      ghost var bs := banks[..];
      var o := OffsetOf(cfg.pin);
      ConfigPad(k, cfg, sleep);
      ghost var b := banks[k].value;
      if backedUp {
        slpm[k] := Put(slpm[k], o, cfg.noChange);
      } else {
        SetSlpm(k, o, cfg.noChange);
      }
      SetModeSafe(k, o, if sleep then AltGpio else cfg.alt, cfg.alt == AltC);
    }

    method MakeInput(k: nat, o: nat, pull: Pull)
      requires k < banks.Length && banks[k].Some?
      modifies banks
      ensures var b := old(banks[k]).value;
        banks[..] == old(banks[..])[k := Some(NomadikPins.SetPull(b.(dir := Put(b.dir, o, false)), o, pull))]
    {
      var b := banks[k].value;
      b := b.(dir := b.dir - {o});
      if pull == PullNone {
        b := b.(pdis := b.pdis + {o}, pullUp := b.pullUp - {o});
      } else {
        b := b.(pdis := b.pdis - {o});
      }
      if pull == PullUp {
        b := b.(pullUp := b.pullUp + {o}, dat := b.dat + {o});
      } else if pull == PullDown {
        b := b.(pullUp := b.pullUp - {o}, dat := b.dat - {o});
      }
      banks[k] := Some(b);
    }

    // ----- lists of pins -----

    /** memset of the backup, then the sleep bit of every alternate-C pin of the list cleared. */
    method PrepareMasks(cfgs: seq<PinCfg>)
      requires Fits(cfgs, slpm.Length)
      modifies slpm
      ensures forall k | 0 <= k < slpm.Length :: slpm[k] == ALL - AltCPins(cfgs, k)
    {
      var k := 0;
      while k < slpm.Length
        invariant 0 <= k <= slpm.Length
        invariant forall j | 0 <= j < k :: slpm[j] == ALL
      {
        slpm[k] := ALL;
        k := k + 1;
      }
      var i := 0;
      while i < |cfgs|
        invariant 0 <= i <= |cfgs|
        invariant forall j | 0 <= j < slpm.Length :: slpm[j] == ALL - AltCPins(cfgs[..i], j)
      {
        forall j | 0 <= j < slpm.Length
          ensures AltCPins(cfgs[..i + 1], j) == AltCPins(cfgs[..i], j) +
            if cfgs[i].alt == AltC && BankOf(cfgs[i].pin) == j then {OffsetOf(cfgs[i].pin)} else {}
        {
          OneMorePin(cfgs, i, j);
        }
        if cfgs[i].alt == AltC {
          var b := BankOf(cfgs[i].pin);
          slpm[b] := slpm[b] - {OffsetOf(cfgs[i].pin)};
        }
        i := i + 1;
      }
      assert cfgs[..|cfgs|] == cfgs;
    }

    /** nmk_gpio_glitch_slpm_init: swap the sleep registers with the masks. */
    method GlitchSlpmInit()
      requires slpm.Length == banks.Length
      modifies banks, slpm
      ensures banks[..] == Replace(old(banks[..]), old(slpm[..]))
      ensures slpm[..] == PutAside(old(banks[..]), old(slpm[..]))
    {
      ghost var bs, masks := banks[..], slpm[..];
      var i := 0;
      while i < banks.Length
        invariant 0 <= i <= FirstGap(bs)
        invariant forall j | 0 <= j < i ::
          banks[j] == Some(bs[j].value.(slpc := masks[j])) && slpm[j] == bs[j].value.slpc
        invariant forall j | i <= j < banks.Length :: banks[j] == bs[j] && slpm[j] == masks[j]
      {
        var temp := slpm[i];
        if banks[i].None? {
          break;
        }
        slpm[i] := banks[i].value.slpc;
        banks[i] := Some(banks[i].value.(slpc := temp));
        i := i + 1;
      }
      assert i == FirstGap(bs);
    }

    method GlitchSlpmRestore()
      requires slpm.Length == banks.Length
      modifies banks
      ensures banks[..] == Replace(old(banks[..]), slpm[..])
    {
      ghost var bs := banks[..];
      var i := 0;
      while i < banks.Length
        invariant 0 <= i <= FirstGap(bs)
        invariant forall j | 0 <= j < i :: banks[j] == Some(bs[j].value.(slpc := slpm[j]))
        invariant forall j | i <= j < banks.Length :: banks[j] == bs[j]
      {
        if banks[i].None? {
          break;
        }
        banks[i] := Some(banks[i].value.(slpc := slpm[i]));
        i := i + 1;
      }
      assert i == FirstGap(bs);
    }

    /** The loop of __nmk_config_pins over the list. */
    method ConfigEach(cfgs: seq<PinCfg>, sleep: bool, glitch: bool, ghost bs: Banks) returns (ret: int)
      requires slpm.Length == banks.Length && glitch == AnyAltC(cfgs) && !ioforce
      requires glitch ==> DuringDetour(bs, banks[..], cfgs)
      modifies banks, slpm, `ioforce, `forced
      ensures !ioforce
      ensures (banks[..], slpm[..], ret) == Outcome(glitch, old(banks[..]), old(slpm[..]), cfgs, sleep)
      ensures SafeSince(bs, cfgs, old(forced), forced)
      ensures !glitch ==> forced == old(forced)
    {
      ghost var x, m, seen := banks[..], slpm[..], forced;
      var i := 0;
      while i < |cfgs|
        invariant 0 <= i <= |cfgs|
        invariant Outcome(glitch, x, m, cfgs, sleep) == Outcome(glitch, banks[..], slpm[..], cfgs[i..], sleep)
        invariant glitch ==> DuringDetour(bs, banks[..], cfgs)
        invariant SafeSince(bs, cfgs, seen, forced)
        invariant !glitch ==> forced == seen
        invariant !ioforce
      {
        var k := BankOf(cfgs[i].pin);
        assert cfgs[i..][0] == cfgs[i] && cfgs[i..][1..] == cfgs[i + 1..];
        if k >= banks.Length || banks[k].None? {
          return -EINVAL;
        }
        ghost var before, now := forced, banks[..];
        OutcomeStep(glitch, banks[..], slpm[..], cfgs[i..], sleep);
        ConfigPin(k, cfgs[i], sleep, glitch);
        if glitch {
          SnapshotsAreSafe(bs, now, cfgs, i, seen, before, forced);
          ConfigureDuringDetour(bs, now, cfgs, k, cfgs[i], sleep);
        }
        i := i + 1;
      }
      ret := 0;
    }

    /** Whether any pin of the list needs the detour. */
    static method NeedsDetour(cfgs: seq<PinCfg>) returns (glitch: bool)
      ensures glitch == AnyAltC(cfgs)
    {
      glitch := false;
      var i := 0;
      while i < |cfgs|
        invariant 0 <= i <= |cfgs|
        invariant forall j | 0 <= j < i :: cfgs[j].alt != AltC
      {
        if cfgs[i].alt == AltC {
          return true;
        }
        i := i + 1;
      }
    }

    /** Swap the masks in, configure, and swap the backup back. */
    method ConfigByDetour(cfgs: seq<PinCfg>, sleep: bool) returns (ret: int)
      requires slpm.Length == banks.Length && Fits(cfgs, banks.Length) && AnyAltC(cfgs) && !ioforce
      modifies banks, slpm, `ioforce, `forced
      ensures !ioforce
      ensures (banks[..], ret) ==
        (WithGaps(old(banks[..]), Direct(old(banks[..]), cfgs, sleep).0), Direct(old(banks[..]), cfgs, sleep).1)
      ensures SafeSince(old(banks[..]), cfgs, old(forced), forced)
    {
      ghost var bs := banks[..];
      PrepareMasks(cfgs);
      ghost var masks := slpm[..];
      GlitchSlpmInit();
      GlitchlessRefinesDirect(bs, masks, cfgs, sleep);
      ret := ConfigEach(cfgs, sleep, true, bs);
      GlitchSlpmRestore();
    }

    /** __nmk_config_pins: the registers and the result are those of the direct way, and every moment
        with IOFORCE high is safe. */
    method ConfigPins(cfgs: seq<PinCfg>, sleep: bool) returns (ret: int)
      requires slpm.Length == banks.Length && Fits(cfgs, banks.Length) && !ioforce
      modifies banks, slpm, `ioforce, `forced
      ensures !ioforce
      ensures ret == Direct(old(banks[..]), cfgs, sleep).1
      ensures banks[..] == if AnyAltC(cfgs) then WithGaps(old(banks[..]), Direct(old(banks[..]), cfgs, sleep).0)
                           else Direct(old(banks[..]), cfgs, sleep).0
      ensures banks[..] == Direct(old(banks[..]), cfgs, sleep).0 <==>
        !AnyAltC(cfgs) || NothingNewPastGap(old(banks[..]), cfgs)
      ensures Contiguous(old(banks[..])) ==> banks[..] == Direct(old(banks[..]), cfgs, sleep).0
      ensures LastEntriesShown(old(banks[..]), banks[..], cfgs, sleep)
      ensures UnnamedPinsKept(old(banks[..]), banks[..], cfgs)
      ensures SafeSince(old(banks[..]), cfgs, old(forced), forced)
      ensures !AnyAltC(cfgs) ==> forced == old(forced)
    {
      if Contiguous(banks[..]) {
        ContiguousBanksHaveNoGaps(banks[..], cfgs, sleep);
      }
      DirectOutcome(banks[..], cfgs, sleep);
      WithGapsOutcome(banks[..], Direct(banks[..], cfgs, sleep).0, cfgs, sleep);
      AgreeIff(banks[..], slpm[..], cfgs, sleep);
      GlitchlessRefinesDirect(banks[..], slpm[..], cfgs, sleep);
      var glitch := NeedsDetour(cfgs);
      if glitch {
        ret := ConfigByDetour(cfgs, sleep);
      } else {
        ret := ConfigEach(cfgs, sleep, false, banks[..]);
      }
    }

    method MakeOutput(k: nat, o: nat, high: bool)
      requires k < banks.Length && banks[k].Some?
      modifies banks
      ensures var b := old(banks[k]).value;
        banks[..] == old(banks[..])[k := Some(b.(dir := Put(b.dir, o, true), dat := Put(b.dat, o, high)))]
    {
      var b := banks[k].value;
      b := b.(dir := b.dir + {o});
      b := b.(dat := if high then b.dat + {o} else b.dat - {o});
      banks[k] := Some(b);
    }
  }

  /** Between swapping the masks in and out: sleep registers of the leading banks hold the masks, and
      no wake mask is disturbed. */
  predicate DuringDetour(bs: Banks, x: Banks, cfgs: seq<PinCfg>) {
    && |x| == |bs|
    && (forall i | 0 <= i < |bs| :: x[i].Some? == bs[i].Some?)
    && (forall i | 0 <= i < FirstGap(bs) :: x[i].value.slpc == ALL - AltCPins(cfgs, i))
    && (forall i | 0 <= i < |bs| && bs[i].Some? ::
          x[i].value.rwimsc == bs[i].value.rwimsc && x[i].value.fwimsc == bs[i].value.fwimsc)
  }

  lemma ConfigureDuringDetour(bs: Banks, x: Banks, cfgs: seq<PinCfg>, k: nat, cfg: PinCfg, sleep: bool)
    requires DuringDetour(bs, x, cfgs) && k < |x| && x[k].Some?
    ensures DuringDetour(bs, x[k := Some(Configure(x[k].value, cfg, sleep))], cfgs)
  {
  }

  /** `now` extends `seen` by safe moments only. */
  predicate SafeSince(bs: Banks, cfgs: seq<PinCfg>, seen: seq<Snapshot>, now: seq<Snapshot>) {
    && |now| >= |seen| && now[..|seen|] == seen
    && forall j | |seen| <= j < |now| :: Safe(bs, cfgs, now[j])
  }

  lemma SnapshotsAreSafe(bs: Banks, x: Banks, cfgs: seq<PinCfg>, i: nat,
                         seen: seq<Snapshot>, before: seq<Snapshot>, now: seq<Snapshot>)
    requires i < |cfgs| && DuringDetour(bs, x, cfgs) && SafeSince(bs, cfgs, seen, before)
    requires |now| >= |before| && now[..|before|] == before
    requires now != before ==> cfgs[i].alt == AltC
    requires forall j | |before| <= j < |now| :: Switching(x, now[j], BankOf(cfgs[i].pin), OffsetOf(cfgs[i].pin))
    ensures SafeSince(bs, cfgs, seen, now)
  {
    assert now[..|seen|] == now[..|before|][..|seen|];
    forall j | |seen| <= j < |now| ensures Safe(bs, cfgs, now[j]) {
      if j < |before| {
        assert now[j] == before[j];
      } else {
        assert Switching(x, now[j], BankOf(cfgs[i].pin), OffsetOf(cfgs[i].pin));
        assert cfgs[i].alt == AltC;
      }
    }
  }

  /** What the loop over the list computes, with and without the detour. */
  function Outcome(glitch: bool, x: Banks, m: seq<Mask>, cfgs: seq<PinCfg>, sleep: bool): (Banks, seq<Mask>, int)
    requires |m| == |x|
  {
    if glitch then Detour(x, m, cfgs, sleep)
    else (Direct(x, cfgs, sleep).0, m, Direct(x, cfgs, sleep).1)
  }

  lemma OutcomeStep(glitch: bool, x: Banks, m: seq<Mask>, cfgs: seq<PinCfg>, sleep: bool)
    requires |m| == |x| && cfgs != [] && HasChip(x, cfgs[0].pin)
    ensures var k := BankOf(cfgs[0].pin);
      Outcome(glitch, x, m, cfgs, sleep) ==
        if glitch
        then Outcome(glitch, x[k := Some(Configure(x[k].value, cfgs[0], sleep))],
                     m[k := Put(m[k], OffsetOf(cfgs[0].pin), cfgs[0].noChange)], cfgs[1..], sleep)
        else Outcome(glitch, x[k := Some(ConfigureDirect(x[k].value, cfgs[0], sleep))], m, cfgs[1..], sleep)
  {
  }

  lemma OneMorePin(cfgs: seq<PinCfg>, i: nat, k: nat)
    requires i < |cfgs|
    ensures AltCPins(cfgs[..i + 1], k) == AltCPins(cfgs[..i], k) +
      if cfgs[i].alt == AltC && BankOf(cfgs[i].pin) == k then {OffsetOf(cfgs[i].pin)} else {}
  {
    var c, d := cfgs[..i], cfgs[..i + 1];
    assert forall j | 0 <= j < i :: c[j] == d[j];
    assert d[i] == cfgs[i];
    forall o | o in AltCPins(d, k)
      ensures o in AltCPins(c, k) || (cfgs[i].alt == AltC && BankOf(cfgs[i].pin) == k && o == OffsetOf(cfgs[i].pin))
    {
      var j :| 0 <= j < |d| && d[j].alt == AltC && BankOf(d[j].pin) == k && o == OffsetOf(d[j].pin);
      if j < i {
        assert c[j] == d[j];
      }
    }
    forall o | o in AltCPins(c, k) ensures o in AltCPins(d, k) {
      var j :| 0 <= j < |c| && c[j].alt == AltC && BankOf(c[j].pin) == k && o == OffsetOf(c[j].pin);
      assert d[j] == c[j];
    }
    if cfgs[i].alt == AltC && BankOf(cfgs[i].pin) == k {
      assert d[i].alt == AltC;
    }
  }

  /** `s` shows the banks `bs`, up to the settings of the pin being switched: same sleep registers
      and wake masks, but for the two wake bits of that pin. */
  predicate Switching(bs: Banks, s: Snapshot, k: nat, o: nat) {
    && s.bank == k && s.offset == o && |s.banks| == |bs| && k < |bs|
    && (forall i | 0 <= i < |bs| && i != k :: s.banks[i] == bs[i])
    && s.banks[k].Some? && bs[k].Some?
    && s.banks[k].value.slpc == bs[k].value.slpc
    && s.banks[k].value.rwimsc == bs[k].value.rwimsc - {o}
    && s.banks[k].value.fwimsc == bs[k].value.fwimsc - {o}
  }
}
