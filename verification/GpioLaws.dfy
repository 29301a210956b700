/** What each call of gpiolib does, told in the fields of the table and of the chip alone. */
module GpioLaws {
  import opened Common
  import opened GpioTable
  import opened GpioLines
  import opened GpioInvariant
  import opened GpioRuns
  import opened GpioArrays
  import opened GpioUser

  /** The module references, with one more for a chip whose owner counts them. */
  function WithOwner(refs: multiset<Module>, c: Chip): multiset<Module> {
    refs + if c.owner.Some? then multiset{c.owner.value} else multiset{}
  }

  function WithoutOwner(refs: multiset<Module>, c: Chip): multiset<Module> {
    refs - if c.owner.Some? then multiset{c.owner.value} else multiset{}
  }

  // ----- request and free -----

  /** A request is refused for a number without a chip, for a chip whose module is going away and for a
      line in use, in this order, and then changes nothing. Otherwise the chip's answer is the result;
      the line is taken, with one reference on the owner, unless that answer is negative. */
  lemma RequestOutcome(s: State, g: int, alive: bool, status: int)
    ensures var (t, e) := Request(s, g, alive, status);
      if !(0 <= g < |s.desc|) || s.desc[g].chip == None then e == -EINVAL && t == s
      else
        var c := s.desc[g].chip.value;
        if c.owner != None && !alive then e == -EINVAL && t == s
        else if s.desc[g].flags.requested then e == -EBUSY && t == s
        else
          && e == (if c.hasRequest then status else 0)
          && (if e < 0 then t == s
              else && t.desc == s.desc[g := s.desc[g].(flags := s.desc[g].flags.(requested := true))]
                   && t.base == s.base && t.idr == s.idr && t.refs == WithOwner(s.refs, c))
  {
    if 0 <= g < |s.desc| && s.desc[g].chip.Some? && !s.desc[g].flags.requested {
      UnclaimUndoesClaim(s, g, s.desc[g].chip.value);
    }
  }

  /** Freeing a line in use silences it, clears its polarity, gives back its reference and its id, and
      leaves its direction; anything else is left alone. */
  lemma FreeOutcome(s: State, g: int)
    requires Inv(s)
    ensures var t := Free(s, g);
      if !(0 <= g < |s.desc|) || !s.desc[g].flags.requested then t == s
      else
        && s.desc[g].chip != None && |t.desc| == |s.desc| && t.base == s.base
        && t.refs == WithoutOwner(s.refs, s.desc[g].chip.value)
        && t.desc[g].chip == s.desc[g].chip
        && t.desc[g].flags == s.desc[g].flags.(requested := false, exported := false, fall := false, rise := false,
                                               activeLow := false, id := 0)
        && t.desc[g].actions == [] && t.desc[g].valueRefs == 0
        && (forall h | 0 <= h < |s.desc| && h != g :: t.desc[h] == s.desc[h])
        && (forall id :: id in t.idr <==> id in s.idr && s.idr[id] != g)
        && (forall id | id in t.idr :: t.idr[id] == s.idr[id])
  {
    if 0 <= g < |s.desc| {
      assert LineOk(s, g);
      if s.desc[g].flags.requested {
        UnexportDropsId(s, g);
        FreeTouchesOneLine(s, g);
      }
    }
  }

  // ----- direction -----

  /** The table with the direction of line `g` set. */
  function WithDirection(s: State, g: nat, output: bool): State
    requires g < |s.desc|
  {
    s.(desc := s.desc[g := s.desc[g].(flags := s.desc[g].flags.(isOut := output))])
  }

  /** Reading a line needs a chip that can get values and be set to input; writing one needs a chip that
      can set values and be set to output. Nothing else does. */
  lemma DirectionOfLineInUse(s: State, g: nat, alive: bool, rs: int, status: int)
    requires TableOk(s) && g < |s.desc| && s.desc[g].chip.Some? && s.desc[g].flags.requested
    ensures var c := s.desc[g].chip.value;
      var (t, e) := Direction(s, g, true, alive, rs, status);
      && (e == 0 <==> c.hasGet && c.hasDirIn && status == 0)
      && e == (if c.hasGet && c.hasDirIn then status else -EINVAL)
      && t == (if e == 0 then WithDirection(s, g, false) else s)
    ensures var c := s.desc[g].chip.value;
      var (t, e) := Direction(s, g, false, alive, rs, status);
      && (e == 0 <==> c.hasSet && c.hasDirOut && status == 0)
      && e == (if c.hasSet && c.hasDirOut then status else -EINVAL)
      && t == (if e == 0 then WithDirection(s, g, true) else s)
  {
    assert InBlock(s, s.desc[g].chip.value, g);
    assert WithDirection(s, g, true).desc == SetFlags(s, g, s.desc[g].flags.(isOut := true)).desc;
  }

  /** How a direction call on a free line ends, given whether the chip has the hooks for it. */
  function FreeDirectionStatus(c: Chip, hooks: bool, alive: bool, rs: int, status: int): int {
    if !hooks then -EINVAL
    else if c.owner != None && !alive then -EIO
    else if c.hasRequest && rs < 0 then rs
    else status
  }

  /** A line that nobody has requested is taken first; a refusal by the chip keeps it taken. */
  lemma InputOfFreeLine(s: State, g: nat, alive: bool, rs: int, status: int)
    requires TableOk(s) && g < |s.desc| && s.desc[g].chip.Some? && !s.desc[g].flags.requested
    ensures var c := s.desc[g].chip.value;
      var (t, e) := Direction(s, g, true, alive, rs, status);
      && (e == 0 <==> c.hasGet && c.hasDirIn && (c.owner == None || alive) && !(c.hasRequest && rs < 0) && status == 0)
      && e == FreeDirectionStatus(c, c.hasGet && c.hasDirIn, alive, rs, status)
      && Taken(s, t, c, g, c.hasGet && c.hasDirIn && (c.owner == None || alive), e == 0, false)
  {
    FreeLineDirected(s, g, true, alive, rs, status);
  }

  lemma OutputOfFreeLine(s: State, g: nat, alive: bool, rs: int, status: int)
    requires TableOk(s) && g < |s.desc| && s.desc[g].chip.Some? && !s.desc[g].flags.requested
    ensures var c := s.desc[g].chip.value;
      var (t, e) := Direction(s, g, false, alive, rs, status);
      && (e == 0 <==> c.hasSet && c.hasDirOut && (c.owner == None || alive) && !(c.hasRequest && rs < 0) && status == 0)
      && e == FreeDirectionStatus(c, c.hasSet && c.hasDirOut, alive, rs, status)
      && Taken(s, t, c, g, c.hasSet && c.hasDirOut && (c.owner == None || alive), e == 0, true)
  {
    FreeLineDirected(s, g, false, alive, rs, status);
  }

  lemma FreeLineDirected(s: State, g: nat, input: bool, alive: bool, rs: int, status: int)
    requires TableOk(s) && g < |s.desc| && s.desc[g].chip.Some? && !s.desc[g].flags.requested
    ensures var c := s.desc[g].chip.value;
      var (t, e) := Direction(s, g, input, alive, rs, status);
      && e == FreeDirectionStatus(c, CanDirect(c, input), alive, rs, status)
      && Taken(s, t, c, g, CanDirect(c, input) && (c.owner == None || alive), e == 0, !input)
  {
    var c := s.desc[g].chip.value;
    assert InBlock(s, c, g);
    if CanDirect(c, input) && CanGet(c, alive) {
      var t := Claim(s, g, c);
      assert DirEnter(s, g, input, alive) == (t, if c.hasRequest then DirRequest(c) else DirSet(c));
      if c.hasRequest && rs < 0 {
        assert Direction(s, g, input, alive, rs, status) == (t, rs);
      } else {
        assert Direction(s, g, input, alive, rs, status) == (DirLeave(t, g, input, status), status);
        DirectedClaim(s, g, c, input, status);
      }
    } else {
      assert Direction(s, g, input, alive, rs, status).0 == s;
    }
  }

  lemma DirectedClaim(s: State, g: nat, c: Chip, input: bool, status: int)
    requires g < |s.desc|
    ensures Taken(s, DirLeave(Claim(s, g, c), g, input, status), c, g, true, status == 0, !input)
  {
    assert DirLeave(Claim(s, g, c), g, input, status).desc == s.desc[g :=
      s.desc[g].(flags := if status == 0 then s.desc[g].flags.(requested := true, isOut := !input)
                          else s.desc[g].flags.(requested := true))];
  }

  /** Line `g` is taken in `t` if `taken`, with a new direction if `directed`, and nothing else changed. */
  predicate Taken(s: State, t: State, c: Chip, g: nat, taken: bool, directed: bool, output: bool)
    requires g < |s.desc|
  {
    if !taken then t == s
    else
      var f := s.desc[g].flags.(requested := true);
      && t.desc == s.desc[g := s.desc[g].(flags := if directed then f.(isOut := output) else f)]
      && t.base == s.base && t.idr == s.idr && t.refs == WithOwner(s.refs, c)
  }

  /** A number without a chip has no direction. */
  lemma DirectionOfNoLine(s: State, g: int, input: bool, alive: bool, rs: int, status: int)
    requires 0 <= g < |s.desc| ==> s.desc[g].chip == None
    ensures Direction(s, g, input, alive, rs, status) == (s, -EINVAL)
  {
  }

  /** A direction hook is called only on a chip that has it. */
  lemma DirectionHooksExist(s: State, g: int, input: bool, alive: bool)
    ensures var o := DirEnter(s, g, input, alive).1;
      && (o.DirSet? && input ==> o.chip.hasGet && o.chip.hasDirIn)
      && (o.DirSet? && !input ==> o.chip.hasSet && o.chip.hasDirOut)
      && (o.DirRequest? ==> o.chip.hasRequest)
      && (o.DirRequest? && input ==> o.chip.hasDirIn)
      && (o.DirRequest? && !input ==> o.chip.hasDirOut)
      && (!o.DirDone? ==> 0 <= g < |s.desc| && s.desc[g].chip == Some(o.chip))
  {
  }

  /** gpio_request_one succeeds exactly for a free line whose chip has the hooks for the direction asked
      for, and whose module and chip agree. */
  lemma RequestOneOutcome(s: State, g: int, e: PinEnv)
    requires TableOk(s)
    ensures RequestOne(s, Pin(g, true), e).1 == 0 <==>
      0 <= g < |s.desc| && s.desc[g].chip != None && !s.desc[g].flags.requested &&
      var c := s.desc[g].chip.value;
      (c.owner == None || e.alive) && (c.hasRequest ==> e.requestStatus == 0)
      && c.hasGet && c.hasDirIn && e.dirStatus == 0
    ensures RequestOne(s, Pin(g, false), e).1 == 0 <==>
      0 <= g < |s.desc| && s.desc[g].chip != None && !s.desc[g].flags.requested &&
      var c := s.desc[g].chip.value;
      (c.owner == None || e.alive) && (c.hasRequest ==> e.requestStatus == 0)
      && c.hasSet && c.hasDirOut && e.dirStatus == 0
  {
    SucceedsIff(s, Pin(g, true), e);
    SucceedsIff(s, Pin(g, false), e);
  }

  // ----- interrupts -----

  /** The interrupt that a chip's hook gives for a line: the one at the line's place in the chip's
      block. */
  predicate HasIrq(s: State, c: Chip, g: int) {
    && c in s.base && 0 <= g - s.base[c] < |c.irqs| && c.irqs[g - s.base[c]] >= 0
  }

  /** After any run from boot, a line that reports edges does so on the interrupt of its own place in its
      chip's block. */
  lemma HandlersListenToTheirLine(n: nat, calls: seq<Call>, g: nat)
    requires Legal(Boot(n), calls) && g < n
    ensures |Run(Boot(n), calls).desc| == n
    ensures var t := Run(Boot(n), calls);
      var d := t.desc[g];
      d.flags.fall || d.flags.rise ==>
        && d.chip != None && HasIrq(t, d.chip.value, g)
        && |d.actions| == 1 && d.actions[0].irq == d.chip.value.irqs[g - t.base[d.chip.value]]
  {
    LinesNeverLeak(n, calls, g, g);
    BootInv(n);
    RunKeepsInv(Boot(n), calls);
    assert LineOk(Run(Boot(n), calls), g);
  }

  /** How writing an edge ends, on an exported line: at once if nothing changes; with -EIO exactly if the
      line's place in the chip's block has no interrupt; at once again for no edge; and otherwise by the
      value file and the id, which only a line without edges needs, and by the handler. */
  lemma EdgeStatus(s: State, g: nat, want: Edges, env: IrqEnv)
    requires Inv(s) && g < |s.desc| && s.desc[g].flags.exported && EnvOk(s, g, env)
    ensures s.desc[g].chip != None
    ensures var f := s.desc[g].flags;
      var quiet := !f.fall && !f.rise;
      EdgeStore(s, g, Some(want), env).1 ==
        if f.fall == want.fall && f.rise == want.rise then 0
        else if !HasIrq(s, s.desc[g].chip.value, g) then -EIO
        else if !want.fall && !want.rise then 0
        else if quiet && !env.fileFound then -ENODEV
        else if quiet && env.id == None then env.idError
        else if quiet && env.id.value >= 0x10000 then -ERANGE
        else if env.irqStatus < 0 then env.irqStatus
        else 0
  {
    assert LineOk(s, g);
    assert InBlock(s, s.desc[g].chip.value, g);
  }

  /** An unknown name is refused before anything else is looked at, and then a line that is not
      exported. */
  lemma EdgeRefusals(s: State, g: nat, want: Option<Edges>, env: IrqEnv)
    requires g < |s.desc| && (want == None || !s.desc[g].flags.exported)
    ensures EdgeStore(s, g, want, env) == (s, if want == None then -EINVAL else -EIO)
  {
  }

  /** If neither the allocator nor the interrupt core answers -EIO, that status tells of a line without
      an interrupt of its own. */
  lemma NoInterruptIff(s: State, g: nat, want: Edges, env: IrqEnv)
    requires Inv(s) && g < |s.desc| && s.desc[g].flags.exported && EnvOk(s, g, env)
    requires Edges(s.desc[g].flags.fall, s.desc[g].flags.rise) != want
    requires env.irqStatus != -EIO && env.idError != -EIO
    ensures s.desc[g].chip != None
    ensures EdgeStore(s, g, Some(want), env).1 == -EIO <==> !HasIrq(s, s.desc[g].chip.value, g)
  {
    EdgeStatus(s, g, want, env);
  }

  // ----- sysfs -----

  /** The names of the edge file, with or without a newline; everything else is unknown. */
  lemma EdgeNames(name: string)
    ensures EdgesOf(name) ==
      if name == "none" || name == "none\n" then Some(Edges(false, false))
      else if name == "falling" || name == "falling\n" then Some(Edges(true, false))
      else if name == "rising" || name == "rising\n" then Some(Edges(false, true))
      else if name == "both" || name == "both\n" then Some(Edges(true, true))
      else None
  {
    assert "none"[|"none"| - 1] == 'e' && "falling"[|"falling"| - 1] == 'g';
    assert "rising"[|"rising"| - 1] == 'g' && "both"[|"both"| - 1] == 'h';
    assert forall a: string, b: string | a + "\n" == b :: b[|b| - 1] == '\n';
  }

  /** The line is free, its module stays, and its chip does not refuse. */
  predicate CanRequest(s: State, g: int, alive: bool, status: int) {
    0 <= g < |s.desc| && s.desc[g].chip != None && !s.desc[g].flags.requested &&
    var c := s.desc[g].chip.value;
    (c.owner == None || alive) && (c.hasRequest ==> status >= 0)
  }

  /** An export from userspace succeeds exactly if the line can be requested and exported. */
  lemma ExportStoreOutcome(s: State, g: int, alive: bool, status: int, ready: bool, deviceStatus: int)
    requires Inv(s) && deviceStatus <= 0
    ensures var e := ExportStore(s, g, alive, status, ready, deviceStatus).1;
      e >= 0 <==> CanRequest(s, g, alive, status) && ready && deviceStatus == 0
  {
    RequestOutcome(s, g, alive, status);
    if 0 <= g < |s.desc| {
      assert LineOk(s, g);
    }
  }

  /** Userspace may unexport exactly what it exported. */
  lemma UnexportStoreOutcome(s: State, g: int)
    ensures var (t, e) := UnexportStore(s, g);
      if 0 <= g < |s.desc| && s.desc[g].flags.sysfs then e == 0 else e == -EINVAL && t == s
  {
  }
}
