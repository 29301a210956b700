/** Configuring pins: the direct way, and the detour that avoids glitches when a pin switches to its
    alternate function C. */
module NomadikPins {
  import opened Common
  import opened NomadikBank

  datatype Alt = AltGpio | AltA | AltB | AltC

  datatype Pull = PullNone | PullUp | PullDown | PullIllegal

  /** A pin configuration word, unpacked. The sleep settings replace the normal ones if present. */
  datatype PinCfg = PinCfg(
    pin: nat,
    alt: Alt,
    noChange: bool,
    pull: Pull,
    output: bool,
    high: bool,
    sleepPull: Option<Pull>,
    sleepOutput: Option<bool>,
    sleepHigh: Option<bool>)

  type Banks = seq<Option<Bank>>

  function BankOf(pin: nat): nat {
    pin / 32
  }

  function OffsetOf(pin: nat): (o: nat)
    ensures o < 32
  {
    pin % 32
  }

  /** The chip that interrupt data names for a pin; a pin beyond the bank table has none. */
  predicate HasChip(bs: Banks, pin: nat) {
    BankOf(pin) < |bs| && bs[BankOf(pin)].Some?
  }

  /** The driver indexes its backup array with the alternate-C pins of a list, unchecked. */
  predicate Fits(cfgs: seq<PinCfg>, n: nat) {
    forall i | 0 <= i < |cfgs| && cfgs[i].alt == AltC :: BankOf(cfgs[i].pin) < n
  }

  // ----- one pin -----

  function SetPull(b: Bank, o: nat, pull: Pull): Bank {
    b.(pdis := Put(b.pdis, o, pull == PullNone),
       pullUp := if pull == PullIllegal then b.pullUp else Put(b.pullUp, o, pull == PullUp),
       dat := if pull == PullUp || pull == PullDown then Put(b.dat, o, pull == PullUp) else b.dat)
  }

  function SetMode(b: Bank, o: nat, alt: Alt): Bank {
    b.(afsla := Put(b.afsla, o, alt == AltA || alt == AltC),
       afslb := Put(b.afslb, o, alt == AltB || alt == AltC))
  }

  function Effective<T>(sleep: bool, special: Option<T>, normal: T): T {
    if sleep && special.Some? then special.value else normal
  }

  /** Direction, level and pull of a pin; in sleep mode the sleep settings win. */
  function SetPad(b: Bank, o: nat, cfg: PinCfg, sleep: bool): Bank {
    if Effective(sleep, cfg.sleepOutput, cfg.output)
    then b.(dir := Put(b.dir, o, true), dat := Put(b.dat, o, Effective(sleep, cfg.sleepHigh, cfg.high)))
    else SetPull(b.(dir := Put(b.dir, o, false)), o, Effective(sleep, cfg.sleepPull, cfg.pull))
  }

  /** Everything that configuring a pin does apart from its sleep register. */
  function Configure(b: Bank, cfg: PinCfg, sleep: bool): Bank {
    var o := OffsetOf(cfg.pin);
    SetMode(SetPad(b, o, cfg, sleep), o, if sleep then AltGpio else cfg.alt)
  }

  function ConfigureDirect(b: Bank, cfg: PinCfg, sleep: bool): Bank {
    Configure(b, cfg, sleep).(slpc := Put(b.slpc, OffsetOf(cfg.pin), cfg.noChange))
  }

  // ----- a list of pins, directly -----

  /** The plain meaning of a list: configure pin by pin and stop at the first missing chip. */
  function Direct(bs: Banks, cfgs: seq<PinCfg>, sleep: bool): (r: (Banks, int))
    ensures |r.0| == |bs|
    ensures forall i | 0 <= i < |bs| :: r.0[i].Some? == bs[i].Some?
    decreases cfgs
  {
    if cfgs == [] then (bs, 0)
    else if !HasChip(bs, cfgs[0].pin) then (bs, -EINVAL)
    else
      var k := BankOf(cfgs[0].pin);
      Direct(bs[k := Some(ConfigureDirect(bs[k].value, cfgs[0], sleep))], cfgs[1..], sleep)
  }

  // ----- the detour -----

  predicate AnyAltC(cfgs: seq<PinCfg>) {
    exists i :: 0 <= i < |cfgs| && cfgs[i].alt == AltC
  }

  /** The pins of bank `k` that the list switches to alternate function C. */
  function AltCPins(cfgs: seq<PinCfg>, k: nat): Mask {
    set i | 0 <= i < |cfgs| && cfgs[i].alt == AltC && BankOf(cfgs[i].pin) == k :: OffsetOf(cfgs[i].pin)
  }

  /** The number of banks before the first empty slot: the loops over banks stop there. */
  function FirstGap(bs: Banks): (n: nat)
    ensures n <= |bs|
    ensures forall i | 0 <= i < n :: bs[i].Some?
    ensures n < |bs| ==> bs[n].None?
    decreases |bs|
  {
    if bs == [] || bs[0].None? then 0 else 1 + FirstGap(bs[1..])
  }

  predicate Contiguous(bs: Banks) {
    forall i | 0 <= i < |bs| :: bs[i].Some? <==> i < FirstGap(bs)
  }

  /** The banks with their sleep registers put aside: register contents come from `slpm`. */
  function Replace(bs: Banks, slpm: seq<Mask>): (r: Banks)
    requires |slpm| == |bs|
    ensures |r| == |bs|
    ensures forall i | 0 <= i < |bs| ::
      r[i] == if i < FirstGap(bs) then Some(bs[i].value.(slpc := slpm[i])) else bs[i]
  {
    seq(|bs|, i requires 0 <= i < |bs| =>
      if i < FirstGap(bs) then Some(bs[i].value.(slpc := slpm[i])) else bs[i])
  }

  /** The detour pin by pin: sleep bits go to the backup `slpm`, not to the registers. */
  function Detour(bs: Banks, slpm: seq<Mask>, cfgs: seq<PinCfg>, sleep: bool): (r: (Banks, seq<Mask>, int))
    requires |slpm| == |bs|
    ensures |r.0| == |bs| && |r.1| == |bs|
    ensures forall i | 0 <= i < |bs| :: r.0[i].Some? == bs[i].Some?
    decreases cfgs
  {
    if cfgs == [] then (bs, slpm, 0)
    else if !HasChip(bs, cfgs[0].pin) then (bs, slpm, -EINVAL)
    else
      var k := BankOf(cfgs[0].pin);
      Detour(bs[k := Some(Configure(bs[k].value, cfgs[0], sleep))],
             slpm[k := Put(slpm[k], OffsetOf(cfgs[0].pin), cfgs[0].noChange)], cfgs[1..], sleep)
  }

  /** What the detour leaves behind, in terms of the direct way: everything the same, except that a
      bank after the first gap keeps its sleep register. */
  function WithGaps(bs: Banks, d: Banks): (r: Banks)
    requires |d| == |bs| && forall i | 0 <= i < |bs| :: d[i].Some? == bs[i].Some?
    ensures |r| == |bs|
    ensures forall i | 0 <= i < |bs| && (i < FirstGap(bs) || bs[i].None?) :: r[i] == d[i]
    ensures forall i | FirstGap(bs) <= i < |bs| && bs[i].Some? ::
      r[i] == Some(d[i].value.(slpc := bs[i].value.slpc))
  {
    seq(|bs|, i requires 0 <= i < |bs| =>
      if i < FirstGap(bs) || bs[i].None? then d[i] else Some(d[i].value.(slpc := bs[i].value.slpc)))
  }

  /** State `x` of the detour with backup `slpm` stands for state `d` of the direct way, both having
      started from `bs`: same banks, with the sleep bits of the leading banks in the backup. */
  predicate Simulates(bs: Banks, x: Banks, slpm: seq<Mask>, d: Banks) {
    && |x| == |bs| && |slpm| == |bs| && |d| == |bs|
    && forall i | 0 <= i < |bs| ::
         && x[i].Some? == bs[i].Some? && d[i].Some? == bs[i].Some?
         && (i < FirstGap(bs) ==> slpm[i] == d[i].value.slpc)
         && (bs[i].Some? ==> x[i].value == d[i].value.(slpc := x[i].value.slpc))
         && (bs[i].Some? && i >= FirstGap(bs) ==> x[i].value.slpc == bs[i].value.slpc)
  }

  lemma ConfigureKeepsSimulation(b: Bank, c: Bank, cfg: PinCfg, sleep: bool)
    requires b == c.(slpc := b.slpc)
    ensures Configure(b, cfg, sleep) == ConfigureDirect(c, cfg, sleep).(slpc := b.slpc)
  {
  }

  lemma {:induction false} DetourSimulatesDirect(bs: Banks, x: Banks, slpm: seq<Mask>, d: Banks,
                                                 cfgs: seq<PinCfg>, sleep: bool)
    requires Simulates(bs, x, slpm, d)
    ensures var (x', slpm', e) := Detour(x, slpm, cfgs, sleep);
      var (d', e') := Direct(d, cfgs, sleep);
      && e == e' && Simulates(bs, x', slpm', d')
      && (forall i | 0 <= i < |bs| && bs[i].Some? :: x'[i].value.slpc == x[i].value.slpc)
    decreases cfgs
  {
    if cfgs != [] {
      if HasChip(bs, cfgs[0].pin) {
        var k := BankOf(cfgs[0].pin);
        ConfigureKeepsSimulation(x[k].value, d[k].value, cfgs[0], sleep);
        DetourSimulatesDirect(bs,
          x[k := Some(Configure(x[k].value, cfgs[0], sleep))],
          slpm[k := Put(slpm[k], OffsetOf(cfgs[0].pin), cfgs[0].noChange)],
          d[k := Some(ConfigureDirect(d[k].value, cfgs[0], sleep))], cfgs[1..], sleep);
      }
    }
  }

  /** The backup array after the swap: the leading banks' sleep registers, then the other masks. */
  function PutAside(bs: Banks, masks: seq<Mask>): (r: seq<Mask>)
    requires |masks| == |bs|
    ensures |r| == |bs|
    ensures forall i | 0 <= i < |bs| :: r[i] == if i < FirstGap(bs) then bs[i].value.slpc else masks[i]
  {
    seq(|bs|, i requires 0 <= i < |bs| => if i < FirstGap(bs) then bs[i].value.slpc else masks[i])
  }

  /** The whole detour: swap masks in, configure, swap the backup back. */
  function Glitchless(bs: Banks, masks: seq<Mask>, cfgs: seq<PinCfg>, sleep: bool): (Banks, int)
    requires |masks| == |bs|
  {
    var (x, slpm', e) := Detour(Replace(bs, masks), PutAside(bs, masks), cfgs, sleep);
    (Replace(x, slpm'), e)
  }

  lemma {:induction false} SameGap(bs: Banks, cs: Banks)
    requires |bs| == |cs| && forall i | 0 <= i < |bs| :: bs[i].Some? == cs[i].Some?
    ensures FirstGap(bs) == FirstGap(cs)
    decreases |bs|
  {
    if bs != [] {
      SameGap(bs[1..], cs[1..]);
    }
  }

  /** The detour, whatever masks it swaps in, ends as the direct way would: every register of every
      bank, and the same result, including an early stop. Only a bank after a gap in the bank table
      keeps its old sleep register. */
  lemma GlitchlessRefinesDirect(bs: Banks, masks: seq<Mask>, cfgs: seq<PinCfg>, sleep: bool)
    requires |masks| == |bs|
    ensures var (d, e) := Direct(bs, cfgs, sleep);
      Glitchless(bs, masks, cfgs, sleep) == (WithGaps(bs, d), e)
  {
    var x := Replace(bs, masks);
    var slpm := PutAside(bs, masks);
    DetourSimulatesDirect(bs, x, slpm, bs, cfgs, sleep);
    var (x', slpm', e) := Detour(x, slpm, cfgs, sleep);
    SameGap(bs, x');
    assert Replace(x', slpm') == WithGaps(bs, Direct(bs, cfgs, sleep).0);
  }

  /** With contiguous banks, as probed, the detour and the direct way cannot be told apart. */
  lemma ContiguousBanksHaveNoGaps(bs: Banks, cfgs: seq<PinCfg>, sleep: bool)
    requires Contiguous(bs)
    ensures WithGaps(bs, Direct(bs, cfgs, sleep).0) == Direct(bs, cfgs, sleep).0
  {
  }

  // ----- when the bank table has a gap -----

  /** How many entries of a list are configured: those before the first pin without a chip. */
  function Reached(bs: Banks, cfgs: seq<PinCfg>): (n: nat)
    ensures n <= |cfgs|
    ensures forall j | 0 <= j < n :: HasChip(bs, cfgs[j].pin)
    ensures n < |cfgs| ==> !HasChip(bs, cfgs[n].pin)
    decreases cfgs
  {
    if cfgs == [] || !HasChip(bs, cfgs[0].pin) then 0 else 1 + Reached(bs, cfgs[1..])
  }

  /** Entry `j` is the last of the first `n` entries that names its pin. */
  predicate LastOfPin(cfgs: seq<PinCfg>, n: nat, j: nat)
    requires n <= |cfgs|
  {
    j < n && forall i | j < i < n :: cfgs[i].pin != cfgs[j].pin
  }

  /** Every configured pin behind the gap has its sleep bit already as its last entry wants it. */
  predicate NothingNewPastGap(bs: Banks, cfgs: seq<PinCfg>) {
    forall j | 0 <= j < Reached(bs, cfgs) && LastOfPin(cfgs, Reached(bs, cfgs), j)
               && BankOf(cfgs[j].pin) > FirstGap(bs) ::
      cfgs[j].noChange <==> OffsetOf(cfgs[j].pin) in bs[BankOf(cfgs[j].pin)].value.slpc
  }

  /** The sleep bit that the first `n` entries of a list leave at a pin. */
  function SleepBit(cfgs: seq<PinCfg>, n: nat, pin: nat, before: bool): bool
    requires n <= |cfgs|
  {
    if n == 0 then before
    else if cfgs[n - 1].pin == pin then cfgs[n - 1].noChange
    else SleepBit(cfgs, n - 1, pin, before)
  }

  lemma {:induction false} SleepBitOfLast(cfgs: seq<PinCfg>, n: nat, j: nat, before: bool)
    requires n <= |cfgs| && LastOfPin(cfgs, n, j)
    ensures SleepBit(cfgs, n, cfgs[j].pin, before) == cfgs[j].noChange
  {
    if j < n - 1 {
      SleepBitOfLast(cfgs, n - 1, j, before);
    }
  }

  /** A pin keeps its sleep bit, or some entry is the last one that names it. */
  lemma {:induction false} SleepBitFrom(cfgs: seq<PinCfg>, n: nat, pin: nat, before: bool) returns (j: Option<nat>)
    requires n <= |cfgs|
    ensures j.Some? ==> LastOfPin(cfgs, n, j.value) && cfgs[j.value].pin == pin
    ensures j.None? ==> SleepBit(cfgs, n, pin, before) == before
  {
    if n == 0 {
      j := None;
    } else if cfgs[n - 1].pin == pin {
      j := Some(n - 1);
    } else {
      j := SleepBitFrom(cfgs, n - 1, pin, before);
    }
  }

  lemma {:induction false} SleepBitOfTail(cfgs: seq<PinCfg>, n: nat, pin: nat, before: bool)
    requires 0 < n <= |cfgs|
    ensures SleepBit(cfgs, n, pin, before) ==
      SleepBit(cfgs[1..], n - 1, pin, if cfgs[0].pin == pin then cfgs[0].noChange else before)
  {
    if n > 1 {
      SleepBitOfTail(cfgs, n - 1, pin, before);
    }
  }

  lemma {:induction false} SameReached(bs: Banks, cs: Banks, cfgs: seq<PinCfg>)
    requires |bs| == |cs| && forall i | 0 <= i < |bs| :: bs[i].Some? == cs[i].Some?
    ensures Reached(bs, cfgs) == Reached(cs, cfgs)
    decreases cfgs
  {
    if cfgs != [] && HasChip(bs, cfgs[0].pin) {
      SameReached(bs, cs, cfgs[1..]);
    }
  }

  /** The direct way leaves at every pin the sleep bit of the last configured entry for it. */
  lemma {:induction false} DirectSleepBit(bs: Banks, cfgs: seq<PinCfg>, sleep: bool, k: nat, o: nat)
    requires k < |bs| && bs[k].Some?
    ensures o in Direct(bs, cfgs, sleep).0[k].value.slpc <==>
      if o < 32 then SleepBit(cfgs, Reached(bs, cfgs), 32 * k + o, o in bs[k].value.slpc)
      else o in bs[k].value.slpc
    decreases cfgs
  {
    if cfgs != [] && HasChip(bs, cfgs[0].pin) {
      var i := BankOf(cfgs[0].pin);
      var next := bs[i := Some(ConfigureDirect(bs[i].value, cfgs[0], sleep))];
      DirectSleepBit(next, cfgs[1..], sleep, k, o);
      SameReached(bs, next, cfgs[1..]);
      if o < 32 {
        SleepBitOfTail(cfgs, Reached(bs, cfgs), 32 * k + o, o in bs[k].value.slpc);
        assert cfgs[0].pin == 32 * k + o <==> i == k && OffsetOf(cfgs[0].pin) == o;
      }
    }
  }

  /** No configured entry has a new sleep bit for bank `k`. */
  predicate NothingNewFor(bs: Banks, cfgs: seq<PinCfg>, k: nat)
    requires k < |bs| && bs[k].Some?
  {
    forall j | 0 <= j < Reached(bs, cfgs) && LastOfPin(cfgs, Reached(bs, cfgs), j) && BankOf(cfgs[j].pin) == k ::
      cfgs[j].noChange <==> OffsetOf(cfgs[j].pin) in bs[k].value.slpc
  }

  lemma EntryDecides(bs: Banks, cfgs: seq<PinCfg>, sleep: bool, j: nat)
    requires j < Reached(bs, cfgs) && LastOfPin(cfgs, Reached(bs, cfgs), j)
    ensures OffsetOf(cfgs[j].pin) in Direct(bs, cfgs, sleep).0[BankOf(cfgs[j].pin)].value.slpc
            <==> cfgs[j].noChange
  {
    var k, o := BankOf(cfgs[j].pin), OffsetOf(cfgs[j].pin);
    DirectSleepBit(bs, cfgs, sleep, k, o);
    SleepBitOfLast(cfgs, Reached(bs, cfgs), j, o in bs[k].value.slpc);
  }

  lemma BitKept(bs: Banks, cfgs: seq<PinCfg>, sleep: bool, k: nat, o: nat)
    requires k < |bs| && bs[k].Some? && NothingNewFor(bs, cfgs, k)
    ensures o in Direct(bs, cfgs, sleep).0[k].value.slpc <==> o in bs[k].value.slpc
  {
    var n := Reached(bs, cfgs);
    var before := o in bs[k].value.slpc;
    DirectSleepBit(bs, cfgs, sleep, k, o);
    if o < 32 {
      var j := SleepBitFrom(cfgs, n, 32 * k + o, before);
      if j.Some? {
        SleepBitOfPin(cfgs, n, j.value, k, o, before);
      }
    }
  }

  lemma SleepBitOfPin(cfgs: seq<PinCfg>, n: nat, j: nat, k: nat, o: nat, before: bool)
    requires n <= |cfgs| && o < 32
    requires LastOfPin(cfgs, n, j) && cfgs[j].pin == 32 * k + o
    ensures SleepBit(cfgs, n, 32 * k + o, before) == cfgs[j].noChange
    ensures BankOf(cfgs[j].pin) == k && OffsetOf(cfgs[j].pin) == o
  {
    SleepBitOfLast(cfgs, n, j, before);
  }

  /** A bank keeps its sleep register under the direct way exactly if no entry has a new bit for it. */
  lemma BankKeptIff(bs: Banks, cfgs: seq<PinCfg>, sleep: bool, k: nat)
    requires k < |bs| && bs[k].Some?
    ensures Direct(bs, cfgs, sleep).0[k].value.slpc == bs[k].value.slpc <==> NothingNewFor(bs, cfgs, k)
  {
    var n := Reached(bs, cfgs);
    var d := Direct(bs, cfgs, sleep).0[k].value.slpc;
    forall j | 0 <= j < n && LastOfPin(cfgs, n, j) && BankOf(cfgs[j].pin) == k
      ensures OffsetOf(cfgs[j].pin) in d <==> cfgs[j].noChange
    {
      EntryDecides(bs, cfgs, sleep, j);
    }
    if NothingNewFor(bs, cfgs, k) {
      forall o: nat ensures o in d <==> o in bs[k].value.slpc {
        BitKept(bs, cfgs, sleep, k, o);
      }
    }
  }

  /** The detour agrees with the direct way exactly when no configured pin behind the first gap of
      the bank table is given a new sleep bit. */
  lemma AgreeIff(bs: Banks, masks: seq<Mask>, cfgs: seq<PinCfg>, sleep: bool)
    requires |masks| == |bs|
    ensures Glitchless(bs, masks, cfgs, sleep) == Direct(bs, cfgs, sleep) <==> NothingNewPastGap(bs, cfgs)
  {
    GlitchlessRefinesDirect(bs, masks, cfgs, sleep);
    var d := Direct(bs, cfgs, sleep).0;
    KeptBanksIff(bs, d);
    forall k | FirstGap(bs) < k < |bs| && bs[k].Some?
      ensures d[k].value.slpc == bs[k].value.slpc <==> NothingNewFor(bs, cfgs, k)
    {
      BankKeptIff(bs, cfgs, sleep, k);
    }
    ByBank(bs, cfgs);
  }

  lemma ByBank(bs: Banks, cfgs: seq<PinCfg>)
    ensures NothingNewPastGap(bs, cfgs) <==>
      forall k | FirstGap(bs) < k < |bs| && bs[k].Some? :: NothingNewFor(bs, cfgs, k)
  {
  }

  lemma KeptBanksIff(bs: Banks, d: Banks)
    requires |d| == |bs| && forall i | 0 <= i < |bs| :: d[i].Some? == bs[i].Some?
    ensures WithGaps(bs, d) == d <==>
      forall k | FirstGap(bs) < k < |bs| && bs[k].Some? :: d[k].value.slpc == bs[k].value.slpc
  {
    var w := WithGaps(bs, d);
    if w == d {
      forall k | FirstGap(bs) < k < |bs| && bs[k].Some? ensures d[k].value.slpc == bs[k].value.slpc {
        assert w[k] == d[k];
      }
    }
  }

  /** An input for which they differ: bank 0 is missing, and pin 32 is switched to alternate function C
      with its sleep bit flipped. The call reports success either way. */
  lemma GapLosesSleepBit(b: Bank, masks: seq<Mask>, cfg: PinCfg, sleep: bool)
    requires |masks| == 2
    requires cfg.pin == 32 && cfg.alt == AltC && (cfg.noChange <==> 0 !in b.slpc)
    ensures var bs := [None, Some(b)];
      var (x, e) := Glitchless(bs, masks, [cfg], sleep);
      var (d, e') := Direct(bs, [cfg], sleep);
      && e == e' == 0
      && x[1].Some? && (0 in x[1].value.slpc <==> 0 in b.slpc)
      && d[1].Some? && (0 in d[1].value.slpc <==> 0 !in b.slpc)
  {
    var bs := [None, Some(b)];
    GlitchlessRefinesDirect(bs, masks, [cfg], sleep);
    assert [cfg][1..] == [];
    assert Direct(bs, [cfg], sleep) == (bs[1 := Some(ConfigureDirect(b, cfg, sleep))], 0);
    assert FirstGap(bs) == 0;
    assert bs[1].Some?;
  }

  // ----- what a list leaves at each pin -----

  /** The entry's own setting, or the one for sleep if it is given and asked for. */
  predicate IsOutput(cfg: PinCfg, sleep: bool) {
    if sleep && cfg.sleepOutput != None then cfg.sleepOutput == Some(true) else cfg.output
  }

  predicate IsHigh(cfg: PinCfg, sleep: bool) {
    if sleep && cfg.sleepHigh != None then cfg.sleepHigh == Some(true) else cfg.high
  }

  predicate HasPull(cfg: PinCfg, sleep: bool, pull: Pull) {
    if sleep && cfg.sleepPull != None then cfg.sleepPull == Some(pull) else cfg.pull == pull
  }

  /** Bank `b` shows what an entry asks for at its pin `o`: the alternate function, which is plain GPIO in
      sleep mode; the direction; the level of an output; and the pull of an input, where a pull up or down
      also sets the level. */
  predicate Shows(b: Bank, o: nat, cfg: PinCfg, sleep: bool) {
    && (o in b.afsla <==> !sleep && (cfg.alt == AltA || cfg.alt == AltC))
    && (o in b.afslb <==> !sleep && (cfg.alt == AltB || cfg.alt == AltC))
    && (o in b.dir <==> IsOutput(cfg, sleep))
    && (IsOutput(cfg, sleep) ==> (o in b.dat <==> IsHigh(cfg, sleep)))
    && (!IsOutput(cfg, sleep) ==> (o in b.pdis <==> HasPull(cfg, sleep, PullNone)))
    && (!IsOutput(cfg, sleep) && HasPull(cfg, sleep, PullNone) ==> o !in b.pullUp)
    && (!IsOutput(cfg, sleep) && HasPull(cfg, sleep, PullUp) ==> o in b.pullUp && o in b.dat)
    && (!IsOutput(cfg, sleep) && HasPull(cfg, sleep, PullDown) ==> o !in b.pullUp && o !in b.dat)
  }

  /** Banks `b` and `c` have the same settings at pin `o`. */
  predicate SameSettings(b: Bank, c: Bank, o: nat) {
    && (o in b.afsla <==> o in c.afsla) && (o in b.afslb <==> o in c.afslb)
    && (o in b.dir <==> o in c.dir) && (o in b.dat <==> o in c.dat)
    && (o in b.pdis <==> o in c.pdis) && (o in b.pullUp <==> o in c.pullUp)
  }

  /** What an entry leaves alone at its own pin: the pull of an output, and the level and an illegal pull
      of an input that has none to set. */
  predicate LeavesAlone(b: Bank, c: Bank, o: nat, cfg: PinCfg, sleep: bool) {
    && (IsOutput(cfg, sleep) ==> (o in c.pdis <==> o in b.pdis) && (o in c.pullUp <==> o in b.pullUp))
    && (!IsOutput(cfg, sleep) && (HasPull(cfg, sleep, PullNone) || HasPull(cfg, sleep, PullIllegal)) ==>
          (o in c.dat <==> o in b.dat))
    && (!IsOutput(cfg, sleep) && HasPull(cfg, sleep, PullIllegal) ==> (o in c.pullUp <==> o in b.pullUp))
  }

  /** One entry, with or without the detour: its own pin shows it, and the other pins keep their
      settings; the sleep register changes only on the direct way, at its own pin. */
  lemma EntryOutcome(b: Bank, cfg: PinCfg, sleep: bool, p: nat)
    ensures var o := cfg.pin % 32;
      var c, d := Configure(b, cfg, sleep), ConfigureDirect(b, cfg, sleep);
      && Shows(c, o, cfg, sleep) && LeavesAlone(b, c, o, cfg, sleep)
      && (p != o ==> SameSettings(b, c, p))
      && d == c.(slpc := d.slpc) && c.slpc == b.slpc
      && (p in d.slpc <==> if p == o then cfg.noChange else p in b.slpc)
  {
  }

  /** A pin that no configured entry names keeps its settings. */
  lemma {:induction false} UnnamedPinIsKept(bs: Banks, cfgs: seq<PinCfg>, sleep: bool, k: nat, o: nat)
    requires k < |bs| && bs[k].Some? && o < 32
    requires forall i | 0 <= i < Reached(bs, cfgs) :: cfgs[i].pin != 32 * k + o
    ensures SameSettings(bs[k].value, Direct(bs, cfgs, sleep).0[k].value, o)
    decreases cfgs
  {
    if cfgs != [] && HasChip(bs, cfgs[0].pin) {
      var i := BankOf(cfgs[0].pin);
      var next := bs[i := Some(ConfigureDirect(bs[i].value, cfgs[0], sleep))];
      SameReached(bs, next, cfgs[1..]);
      EntryOutcome(bs[i].value, cfgs[0], sleep, o);
      OtherPin(cfgs[0].pin, k, o);
      RestUnnamed(cfgs, Reached(bs, cfgs), 32 * k + o);
      UnnamedPinIsKept(next, cfgs[1..], sleep, k, o);
    }
  }

  lemma OtherPin(pin: nat, k: nat, o: nat)
    requires o < 32
    ensures pin != 32 * k + o <==> pin / 32 != k || pin % 32 != o
  {
  }

  lemma RestUnnamed(cfgs: seq<PinCfg>, n: nat, pin: nat)
    requires 0 < n <= |cfgs| && forall i | 0 <= i < n :: cfgs[i].pin != pin
    ensures forall i | 0 <= i < n - 1 :: cfgs[1..][i].pin != pin
  {
    assert forall i | 0 <= i < n - 1 :: cfgs[1..][i] == cfgs[i + 1];
  }

  /** A list succeeds exactly if every pin in it has a chip, and fails with -EINVAL if not. */
  lemma {:induction false} DirectStatus(bs: Banks, cfgs: seq<PinCfg>, sleep: bool)
    ensures Direct(bs, cfgs, sleep).1 ==
      if forall i | 0 <= i < |cfgs| :: cfgs[i].pin / 32 < |bs| && bs[cfgs[i].pin / 32].Some? then 0 else -EINVAL
    decreases cfgs
  {
    if cfgs != [] && HasChip(bs, cfgs[0].pin) {
      var i := BankOf(cfgs[0].pin);
      var next := bs[i := Some(ConfigureDirect(bs[i].value, cfgs[0], sleep))];
      DirectStatus(next, cfgs[1..], sleep);
      assert forall a | 0 <= a < |cfgs[1..]| :: cfgs[1..][a] == cfgs[a + 1];
      assert forall a | 0 <= a < |cfgs| :: a == 0 || cfgs[a] == cfgs[1..][a - 1];
    }
  }

  /** After a list, every pin shows the last configured entry that names it. */
  lemma {:induction false} LastEntryShows(bs: Banks, cfgs: seq<PinCfg>, sleep: bool, j: nat)
    requires j < Reached(bs, cfgs) && LastOfPin(cfgs, Reached(bs, cfgs), j)
    ensures Shows(Direct(bs, cfgs, sleep).0[cfgs[j].pin / 32].value, cfgs[j].pin % 32, cfgs[j], sleep)
    decreases cfgs
  {
    var n := Reached(bs, cfgs);
    var i := BankOf(cfgs[0].pin);
    var next := bs[i := Some(ConfigureDirect(bs[i].value, cfgs[0], sleep))];
    SameReached(bs, next, cfgs[1..]);
    if j == 0 {
      var o := cfgs[0].pin % 32;
      EntryOutcome(bs[i].value, cfgs[0], sleep, o);
      assert forall a | 0 <= a < n - 1 :: cfgs[1..][a] == cfgs[a + 1];
      UnnamedPinIsKept(next, cfgs[1..], sleep, i, o);
      ShowsSame(next[i].value, Direct(next, cfgs[1..], sleep).0[i].value, o, cfgs[0], sleep);
    } else {
      assert cfgs[1..][j - 1] == cfgs[j];
      LaterIsLast(cfgs, n, j);
      LastEntryShows(next, cfgs[1..], sleep, j - 1);
    }
  }

  lemma LaterIsLast(cfgs: seq<PinCfg>, n: nat, j: nat)
    requires 0 < j < n <= |cfgs| && LastOfPin(cfgs, n, j)
    ensures LastOfPin(cfgs[1..], n - 1, j - 1)
  {
    assert forall a | 0 <= a < n - 1 :: cfgs[1..][a] == cfgs[a + 1];
  }

  /** Levels that an entry leaves alone do not matter to what it shows. */
  lemma ShowsSame(b: Bank, c: Bank, o: nat, cfg: PinCfg, sleep: bool)
    requires Shows(b, o, cfg, sleep) && SameSettings(b, c, o)
    ensures Shows(c, o, cfg, sleep)
  {
  }

  /** Banks `x` show the last configured entry of every pin that a list names. */
  predicate LastEntriesShown(bs: Banks, x: Banks, cfgs: seq<PinCfg>, sleep: bool) {
    |x| == |bs| &&
    forall j | 0 <= j < Reached(bs, cfgs) && LastOfPin(cfgs, Reached(bs, cfgs), j) ::
      x[cfgs[j].pin / 32].Some? && Shows(x[cfgs[j].pin / 32].value, cfgs[j].pin % 32, cfgs[j], sleep)
  }

  /** And they have the settings of `bs` at every pin that no configured entry names. */
  ghost predicate UnnamedPinsKept(bs: Banks, x: Banks, cfgs: seq<PinCfg>) {
    |x| == |bs| &&
    forall k: nat, o: nat | k < |bs| && bs[k].Some? && o < 32 && Unnamed(bs, cfgs, k, o) ::
      x[k].Some? && SameSettings(bs[k].value, x[k].value, o)
  }

  predicate Unnamed(bs: Banks, cfgs: seq<PinCfg>, k: nat, o: nat) {
    forall i | 0 <= i < Reached(bs, cfgs) :: cfgs[i].pin != 32 * k + o
  }

  lemma DirectOutcome(bs: Banks, cfgs: seq<PinCfg>, sleep: bool)
    ensures LastEntriesShown(bs, Direct(bs, cfgs, sleep).0, cfgs, sleep)
    ensures UnnamedPinsKept(bs, Direct(bs, cfgs, sleep).0, cfgs)
  {
    forall j | 0 <= j < Reached(bs, cfgs) && LastOfPin(cfgs, Reached(bs, cfgs), j)
      ensures Shows(Direct(bs, cfgs, sleep).0[cfgs[j].pin / 32].value, cfgs[j].pin % 32, cfgs[j], sleep)
    {
      LastEntryShows(bs, cfgs, sleep, j);
    }
    forall k: nat, o: nat | k < |bs| && bs[k].Some? && o < 32 && Unnamed(bs, cfgs, k, o)
      ensures SameSettings(bs[k].value, Direct(bs, cfgs, sleep).0[k].value, o)
    {
      UnnamedPinIsKept(bs, cfgs, sleep, k, o);
    }
  }

  /** A gap costs sleep bits only. */
  lemma WithGapsOutcome(bs: Banks, d: Banks, cfgs: seq<PinCfg>, sleep: bool)
    requires |d| == |bs| && forall i | 0 <= i < |bs| :: d[i].Some? == bs[i].Some?
    requires LastEntriesShown(bs, d, cfgs, sleep) && UnnamedPinsKept(bs, d, cfgs)
    ensures LastEntriesShown(bs, WithGaps(bs, d), cfgs, sleep)
    ensures UnnamedPinsKept(bs, WithGaps(bs, d), cfgs)
  {
    var w := WithGaps(bs, d);
    forall i, o: nat | 0 <= i < |bs| && bs[i].Some? ensures w[i].Some? && SameSettings(d[i].value, w[i].value, o) {
    }
    forall j | 0 <= j < Reached(bs, cfgs) && LastOfPin(cfgs, Reached(bs, cfgs), j)
      ensures Shows(w[cfgs[j].pin / 32].value, cfgs[j].pin % 32, cfgs[j], sleep)
    {
      var k := cfgs[j].pin / 32;
      ShowsSame(d[k].value, w[k].value, cfgs[j].pin % 32, cfgs[j], sleep);
    }
    forall k: nat, o: nat | k < |bs| && bs[k].Some? && o < 32 && Unnamed(bs, cfgs, k, o)
      ensures SameSettings(bs[k].value, w[k].value, o)
    {
      assert SameSettings(bs[k].value, d[k].value, o) && SameSettings(d[k].value, w[k].value, o);
    }
  }
}
