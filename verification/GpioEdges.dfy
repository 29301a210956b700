/** What a process that polls a line's value file gets to see. */
module GpioEdges {
  import opened Common
  import opened GpioTable
  import opened GpioLines
  import opened GpioInvariant
  import opened GpioRuns
  import opened GpioArrays

  /** The value that sysfs shows for a physical level. */
  function Logical(level: bool, activeLow: bool): bool {
    level != activeLow
  }

  /** Whether a change of the physical level reaches one of the handlers. */
  predicate Notified(actions: seq<Action>, before: bool, after: bool) {
    exists k :: 0 <= k < |actions| &&
      ((before && !after && actions[k].falling) || (!before && after && actions[k].rising))
  }

  /** Whether a change of the shown value is one that the trigger bits ask for. */
  predicate Wanted(f: Flags, before: bool, after: bool) {
    var v, w := Logical(before, f.activeLow), Logical(after, f.activeLow);
    (v && !w && f.fall) || (!v && w && f.rise)
  }

  /** After any run from boot - edges chosen, polarity flipped, handlers lost and set up again - a
      change of the line wakes pollers exactly if the value they read changes the way they asked. */
  lemma PollersSeeTheEdgesTheyAskedFor(n: nat, calls: seq<Call>, g: nat, before: bool, after: bool)
    requires Legal(Boot(n), calls) && g < n
    ensures |Run(Boot(n), calls).desc| == n
    ensures var d := Run(Boot(n), calls).desc[g];
      Notified(d.actions, before, after) <==> Wanted(d.flags, before, after)
  {
    LinesNeverLeak(n, calls, g, g);
    var t := Run(Boot(n), calls);
    var d := t.desc[g];
    if Trigger(d.flags) != NO_EDGES {
      assert d.actions[0] == Physical(Irq(t, g), Trigger(d.flags), d.flags.activeLow);
    }
  }

  lemma SetupIrqOutcome(s: State, g: nat, want: Edges, env: IrqEnv)
    requires Inv(s) && g < |s.desc| && EnvOk(s, g, env)
    ensures var (t, e) := SetupIrq(s, g, want, env);
      var now := Trigger(s.desc[g].flags);
      && (e == 0 ==> Trigger(t.desc[g].flags) == want)
      && (e != 0 ==> Trigger(t.desc[g].flags) == NO_EDGES || (t == s && Irq(s, g) < 0))
      && (e != 0 && now == NO_EDGES ==> t == s)
      && (want == NO_EDGES && s.desc[g].flags.exported ==> e == 0)
      && t.desc[g].flags.activeLow == s.desc[g].flags.activeLow
  {
    assert LineOk(s, g);
    if Trigger(s.desc[g].flags) == NO_EDGES {
      assert 0 !in s.idr;
      assert Quiet(s, g).desc == s.desc;
      assert Quiet(s, g).idr == s.idr;
    }
  }

  /** Choosing edges succeeds with exactly the wanted ones, or fails; a failure keeps what was there
      only if it comes before the old handler is freed, and otherwise leaves no edge at all. An
      unknown name changes nothing. */
  lemma EdgeStoreOutcome(s: State, g: nat, want: Option<Edges>, env: IrqEnv)
    requires Inv(s) && g < |s.desc| && s.desc[g].flags.exported && EnvOk(s, g, env)
    ensures var (t, e) := EdgeStore(s, g, want, env);
      var now := Trigger(s.desc[g].flags);
      && (e == 0 ==> want == Some(Trigger(t.desc[g].flags)))
      && (e != 0 ==> Trigger(t.desc[g].flags) == NO_EDGES || (t == s && (want.None? || Irq(s, g) < 0)))
      && (e != 0 && now == NO_EDGES ==> t == s)
      && (want == Some(NO_EDGES) ==> e == 0)
      && t.desc[g].flags.activeLow == s.desc[g].flags.activeLow
  {
    if want.Some? {
      SetupIrqOutcome(s, g, want.value, env);
    }
  }

  /** Setting up an edge on a quiet line that has an interrupt fails exactly if the kernel refuses. */
  lemma SetUpAgain(q: State, g: nat, want: Edges, env: IrqEnv)
    requires Inv(q) && g < |q.desc| && EnvOk(q, g, env) && Irq(q, g) >= 0
    requires Trigger(q.desc[g].flags) == NO_EDGES && want != NO_EDGES
    ensures var (t, e) := SetupIrq(q, g, want, env);
      && (e == 0 <==> env.fileFound && env.id.Some? && env.id.value < 0x10000 && env.irqStatus >= 0)
      && Trigger(t.desc[g].flags) == (if e == 0 then want else NO_EDGES)
      && t.desc[g].flags.activeLow == q.desc[g].flags.activeLow
  {
    SetupIrqOutcome(q, g, want, env);
  }

  /** A flip has to set up one edge again, and the kernel refuses a new id or the handler. */
  predicate FlipLosesEdges(s: State, g: nat, low: bool, env: IrqEnv)
    requires g < |s.desc|
  {
    var f := s.desc[g].flags;
    && f.activeLow != low && f.fall != f.rise
    && (!env.fileFound || env.id.None? || env.id.value >= 0x10000 || env.irqStatus < 0)
  }

  /** Flipping the polarity always takes effect. It reports an error exactly if the one edge in
      use cannot be set up again; then no edge is left, and otherwise the edges stay. */
  lemma PolarityFlipOutcome(s: State, g: nat, low: bool, env: IrqEnv)
    requires Inv(s) && g < |s.desc| && EnvOk(s, g, env)
    ensures var (t, e) := SetActiveLow(s, g, low, env);
      && t.desc[g].flags.activeLow == low
      && (e == 0 <==> !FlipLosesEdges(s, g, low, env))
      && Trigger(t.desc[g].flags) ==
           if FlipLosesEdges(s, g, low, env) then NO_EDGES else Trigger(s.desc[g].flags)
  {
    assert LineOk(s, g);
    var e := Trigger(s.desc[g].flags);
    if s.desc[g].flags.activeLow != low && e.fall != e.rise {
      FlippedQuietKeepsInv(s, g, low);
      FlipThenSilence(s, g, low, env);
      SetUpAgain(FlippedQuiet(s, g, low), g, e, env);
    }
  }

  /** The calls that bring up a line with one chip and a falling edge. */
  function FallingLine(c: Chip): seq<Call> {
    [CallPrepare(c, 0), CallAdd(c), CallRequest(0, true, 0), CallExport(0, true, 0),
     CallEdge(0, Some(Edges(true, false)), IrqEnv(true, Some(1), -1, 0))]
  }

  /** A run after which a flip fails with -EBUSY, because another driver took the interrupt meanwhile:
      the value reads inverted from then on, and pollers are not notified any more. */
  lemma FlipFailsButTakesEffect(c: Chip)
    requires c.ngpio == 1 && c.irqs == [7]
    ensures Legal(Boot(1), FallingLine(c)) && |Run(Boot(1), FallingLine(c)).desc| == 1
    ensures var s := Run(Boot(1), FallingLine(c));
      var env := IrqEnv(true, Some(2), -1, -EBUSY);
      var (t, e) := SetActiveLow(s, 0, true, env);
      && EnvOk(s, 0, env) && Trigger(s.desc[0].flags) == Edges(true, false)
      && e == -EBUSY && t.desc[0].flags.activeLow && Trigger(t.desc[0].flags) == NO_EDGES
  {
    var edge := CallEdge(0, Some(Edges(true, false)), IrqEnv(true, Some(1), -1, 0));
    var s4 := BringUp(c, edge);
    FirstCall(s4, edge, []);
    assert [edge] + [] == [edge];
    FallingEdge(c, s4);
    assert Run(Boot(1), FallingLine(c)) == Step(s4, edge) == Armed(s4, 0, Edges(true, false), 1);
    FlipRefused(c, Step(s4, edge));
  }

  /** The state of a table with one line, at number 0, exported and without an edge. */
  predicate OneLine(c: Chip, s: State) {
    && |s.desc| == 1 && s.base == map[c := 0] && s.idr == map[] && s.desc[0].chip == Some(c)
    && s.desc[0].flags == FreshFlags(c).(requested := true, exported := true)
  }

  lemma BringUp(c: Chip, edge: Call) returns (s4: State)
    requires c.ngpio == 1 && edge.CallEdge? && edge.gpio == 0 && edge.env == IrqEnv(true, Some(1), -1, 0)
    ensures OneLine(c, s4) && Allowed(s4, edge)
    ensures Legal(s4, [edge]) ==>
      var calls := [CallPrepare(c, 0), CallAdd(c), CallRequest(0, true, 0), CallExport(0, true, 0), edge];
      Legal(Boot(1), calls) && Run(Boot(1), calls) == Run(s4, [edge])
  {
    var s1 := Step(Boot(1), CallPrepare(c, 0));
    var s2 := Step(s1, CallAdd(c));
    assert s2 == Install(s1, c, 0);
    var s3 := Step(s2, CallRequest(0, true, 0));
    assert s3 == Claim(s2, 0, c);
    s4 := Step(s3, CallExport(0, true, 0));
    if Legal(s4, [edge]) {
      FirstCall(s3, CallExport(0, true, 0), [edge]);
      FirstCall(s2, CallRequest(0, true, 0), [CallExport(0, true, 0), edge]);
      FirstCall(s1, CallAdd(c), [CallRequest(0, true, 0), CallExport(0, true, 0), edge]);
      FirstCall(Boot(1), CallPrepare(c, 0), [CallAdd(c), CallRequest(0, true, 0), CallExport(0, true, 0), edge]);
    }
  }

  lemma FallingEdge(c: Chip, s: State)
    requires c.irqs == [7] && OneLine(c, s)
    ensures var env := IrqEnv(true, Some(1), -1, 0);
      EdgeStore(s, 0, Some(Edges(true, false)), env) == (Armed(s, 0, Edges(true, false), 1), 0)
  {
    assert Irq(s, 0) == 7;
  }

  lemma FlipRefused(c: Chip, s: State)
    requires c.irqs == [7] && |s.desc| == 1 && s.base == map[c := 0] && s.idr == map[1 := 0]
    requires s.desc[0].chip == Some(c)
    requires s.desc[0].flags == FreshFlags(c).(requested := true, exported := true, fall := true, id := 1)
    ensures var env := IrqEnv(true, Some(2), -1, -EBUSY);
      var (t, e) := SetActiveLow(s, 0, true, env);
      && EnvOk(s, 0, env)
      && e == -EBUSY && t.desc[0].flags.activeLow && Trigger(t.desc[0].flags) == NO_EDGES
  {
    var env := IrqEnv(true, Some(2), -1, -EBUSY);
    var t := SetFlags(s, 0, s.desc[0].flags.(activeLow := true));
    assert Irq(t, 0) == 7;
    var q := Quiet(t, 0);
    assert SetupIrq(t, 0, NO_EDGES, env).0 == q;
    assert Irq(q, 0) == 7;
  }

  lemma FirstCall(s: State, call: Call, rest: seq<Call>)
    requires Allowed(s, call) && Legal(Step(s, call), rest)
    ensures Legal(s, [call] + rest)
    ensures Run(s, [call] + rest) == Run(Step(s, call), rest)
  {
    assert ([call] + rest)[1..] == rest;
  }

  /** gpio_request is the clean way to get a line: a direction call on a line that nobody requested
      keeps the line, and its module reference, even if the chip refuses the request. */
  lemma RefusedAutorequestKeepsLine(s: State, g: int, input: bool, alive: bool, rs: int, status: int)
    requires TableOk(s) && IsGpio(s, g) && s.desc[g].chip.Some? && !s.desc[g].flags.requested
    requires var c := s.desc[g].chip.value; CanDirect(c, input) && CanGet(c, alive) && c.hasRequest
    requires rs < 0
    ensures Direction(s, g, input, alive, rs, status) == (Claim(s, g, s.desc[g].chip.value), rs)
    ensures Request(s, g, alive, rs) == (s, rs)
  {
    assert InBlock(s, s.desc[g].chip.value, g);
    UnclaimUndoesClaim(s, g, s.desc[g].chip.value);
  }

  /** From then on the chip cannot be removed. */
  lemma ClaimedLinePinsChip(s: State, g: nat)
    requires TableOk(s) && g < |s.desc| && s.desc[g].chip.Some?
    ensures OwnsBlock(Claim(s, g, s.desc[g].chip.value), s.desc[g].chip.value)
    ensures Remove(Claim(s, g, s.desc[g].chip.value), s.desc[g].chip.value).1 == -EBUSY
  {
    var c := s.desc[g].chip.value;
    var t := Claim(s, g, c);
    assert OwnsBlock(s, c) && InBlock(s, c, g);
    assert t.desc[g].flags.requested;
  }
}
