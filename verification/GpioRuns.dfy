/** Whole runs of gpiolib calls, and the calls made of several others. */
module GpioRuns {
  import opened Common
  import opened GpioTable
  import opened GpioLines
  import opened GpioInvariant

  // ----- composed calls keep the invariant -----

  lemma RequestKeepsInv(s: State, g: int, alive: bool, status: int)
    requires Inv(s)
    ensures Inv(Request(s, g, alive, status).0)
  {
    if IsGpio(s, g) {
      assert LineOk(s, g);
      if s.desc[g].chip.Some? && !s.desc[g].flags.requested {
        var c := s.desc[g].chip.value;
        ClaimKeepsInv(s, g, c);
        UnclaimKeepsInv(Claim(s, g, c), g, c);
      }
    }
  }

  lemma FirstRequest(s: State, g: nat, c: Chip, alive: bool, status: int)
    requires g < |s.desc| && s.desc[g].chip == Some(c) && CanGet(c, alive) && !s.desc[g].flags.requested
    ensures Request(s, g, alive, status) ==
      if !c.hasRequest then (Claim(s, g, c), 0)
      else (if status < 0 then Unclaim(Claim(s, g, c), g, c) else Claim(s, g, c), status)
  {
  }

  lemma FreeKeepsInv(s: State, g: int)
    requires Inv(s)
    ensures Inv(Free(s, g))
  {
    if IsGpio(s, g) {
      UnexportKeepsInv(s, g);
      var t := Unexport(s, g);
      if t.desc[g].chip.Some? && t.desc[g].flags.requested {
        FreeLeaveKeepsInv(t, g);
      }
    }
  }

  lemma EnterKeepsInv(s: State, g: int, alive: bool, input: bool)
    requires Inv(s)
    ensures Inv(RequestEnter(s, g, alive).0) && Inv(DirEnter(s, g, input, alive).0)
  {
    if IsGpio(s, g) && s.desc[g].chip.Some? && !s.desc[g].flags.requested {
      ClaimKeepsInv(s, g, s.desc[g].chip.value);
    }
  }

  lemma DirectionKeepsInv(s: State, g: int, input: bool, alive: bool, requestStatus: int, status: int)
    requires Inv(s)
    ensures Inv(Direction(s, g, input, alive, requestStatus, status).0)
  {
    var t := DirEnter(s, g, input, alive).0;
    assert Inv(t) by {
      EnterKeepsInv(s, g, alive, input);
    }
    if IsGpio(t, g) {
      assert Inv(DirLeave(t, g, input, status)) by {
        DirLeaveKeepsInv(t, g, input, status);
      }
    }
  }

  /** A driver may set the base of a chip that is not in the table, before adding it. */
  lemma PrepareKeepsTable(s: State, c: Chip, b: int)
    requires TableOk(s) && forall i | 0 <= i < |s.desc| :: s.desc[i].chip != Some(c)
    ensures TableOk(s.(base := s.base[c := b]))
  {
    var t := s.(base := s.base[c := b]);
    forall i | 0 <= i < |t.desc| && t.desc[i].chip.Some?
      ensures OwnsBlock(t, t.desc[i].chip.value) && InBlock(t, t.desc[i].chip.value, i)
    {
      assert OwnsBlock(s, s.desc[i].chip.value) && InBlock(s, s.desc[i].chip.value, i);
    }
  }

  lemma PrepareKeepsInv(s: State, c: Chip, b: int)
    requires Inv(s) && forall i | 0 <= i < |s.desc| :: s.desc[i].chip != Some(c)
    ensures Inv(s.(base := s.base[c := b]))
  {
    var t := s.(base := s.base[c := b]);
    PrepareKeepsTable(s, c, b);
    forall g | 0 <= g < |s.desc|
      ensures Irq(t, g) == Irq(s, g)
      ensures !s.desc[g].flags.requested ==>
        !t.desc[g].flags.exported && t.desc[g].flags.id == 0 && Trigger(t.desc[g].flags) == NO_EDGES
    {
      assert LineOk(s, g);
    }
    TableStepKeepsInv(s, t);
  }

  // ----- runs -----

  /** One call with everything its environment answers. */
  datatype Call =
    | CallPrepare(chip: Chip, base: int)
    | CallAdd(chip: Chip)
    | CallRemove(chip: Chip)
    | CallReserve(start: int, n: int)
    | CallRequest(gpio: int, alive: bool, status: int)
    | CallFree(gpio: int)
    | CallDirection(gpio: int, input: bool, alive: bool, requestStatus: int, status: int)
    | CallExport(gpio: int, ready: bool, status: int)
    | CallUnexport(gpio: int)
    | CallEdge(gpio: int, want: Option<Edges>, env: IrqEnv)
    | CallActiveLow(gpio: int, low: bool, env: IrqEnv)

  /** What a caller has to respect: a chip is prepared only while it is out of the table and
      removed only while it is in it. The edge and polarity files belong to a line. */
  predicate Allowed(s: State, call: Call) {
    match call
    case CallPrepare(c, b) => forall i | 0 <= i < |s.desc| :: s.desc[i].chip != Some(c)
    case CallAdd(c) => c in s.base
    case CallRemove(c) => OwnsBlock(s, c)
    case CallEdge(g, _, env) => IsGpio(s, g) && EnvOk(s, g, env)
    case CallActiveLow(g, _, env) => IsGpio(s, g) && EnvOk(s, g, env)
    case _ => true
  }

  /** An export that faults never returns; the table stays as it is. */
  function Step(s: State, call: Call): State
    requires Allowed(s, call)
  {
    match call
    case CallPrepare(c, b) => s.(base := s.base[c := b])
    case CallAdd(c) => Add(s, c).0
    case CallRemove(c) => Remove(s, c).0
    case CallReserve(start, n) => Reserve(s, start, n).0
    case CallRequest(g, alive, status) => Request(s, g, alive, status).0
    case CallFree(g) => Free(s, g)
    case CallDirection(g, input, alive, rs, st) => Direction(s, g, input, alive, rs, st).0
    case CallExport(g, ready, st) => Export(s, g, ready, st).0
    case CallUnexport(g) => Unexport(s, g)
    case CallEdge(g, want, env) => EdgeStore(s, g, want, env).0
    case CallActiveLow(g, low, env) => SetActiveLow(s, g, low, env).0
  }

  predicate Legal(s: State, calls: seq<Call>)
    decreases calls
  {
    calls == [] || (Allowed(s, calls[0]) && Legal(Step(s, calls[0]), calls[1..]))
  }

  function Run(s: State, calls: seq<Call>): State
    requires Legal(s, calls)
    decreases calls
  {
    if calls == [] then s else Run(Step(s, calls[0]), calls[1..])
  }

  /** The table at boot. */
  function Boot(n: nat): State {
    State(seq(n, _ => Desc(None, Flags(false, false, false, false, false, false, false, false, 0), [], 0)),
          map[], multiset{}, map[])
  }

  lemma BootInv(n: nat)
    ensures Inv(Boot(n))
  {
    NothingHeld(Boot(n).desc);
  }

  lemma {:induction false} NothingHeld(d: seq<Desc>)
    requires forall i | 0 <= i < |d| :: Held(d[i]) == multiset{}
    ensures Owners(d) == multiset{}
  {
    if d != [] {
      NothingHeld(d[..|d| - 1]);
    }
  }

  lemma StepKeepsInv(s: State, call: Call)
    requires Inv(s) && Allowed(s, call)
    ensures Inv(Step(s, call))
  {
    match call
    case CallPrepare(c, b) => PrepareKeepsInv(s, c, b);
    case CallAdd(c) => AddKeepsInv(s, c);
    case CallRemove(c) => RemoveKeepsInv(s, c);
    case CallReserve(start, n) => ReserveKeepsInv(s, start, n);
    case CallRequest(g, alive, status) => RequestKeepsInv(s, g, alive, status);
    case CallFree(g) => FreeKeepsInv(s, g);
    case CallDirection(g, input, alive, rs, st) => DirectionKeepsInv(s, g, input, alive, rs, st);
    case CallExport(g, ready, st) => ExportKeepsInv(s, g, ready, st);
    case CallUnexport(g) => if IsGpio(s, g) { UnexportKeepsInv(s, g); }
    case CallEdge(g, want, env) =>
      if want.Some? && s.desc[g].flags.exported {
        SetupIrqKeepsInv(s, g, want.value, env);
      }
    case CallActiveLow(g, low, env) => SetActiveLowKeepsInv(s, g, low, env);
  }

  lemma {:induction false} RunKeepsInv(s: State, calls: seq<Call>)
    requires Inv(s) && Legal(s, calls)
    ensures Inv(Run(s, calls))
    decreases calls
  {
    if calls != [] {
      StepKeepsInv(s, calls[0]);
      RunKeepsInv(Step(s, calls[0]), calls[1..]);
    }
  }

  // ----- what a run promises -----

  /** The requested lines of chips that module `m` owns. */
  function RequestedLines(d: seq<Desc>, m: Module): set<nat> {
    set g | 0 <= g < |d| && Held(d[g]) == multiset{m}
  }

  lemma {:induction false} OwnersCountsLines(d: seq<Desc>, m: Module)
    ensures Owners(d)[m] == |RequestedLines(d, m)|
  {
    if d != [] {
      var n := |d| - 1;
      OwnersCountsLines(d[..n], m);
      LastLine(d, m);
      HeldByOne(d[n], m);
    }
  }

  lemma HeldByOne(d: Desc, m: Module)
    ensures Held(d)[m] == if Held(d) == multiset{m} then 1 else 0
  {
    if d.flags.requested && d.chip.Some? && d.chip.value.owner.Some? {
      var o := d.chip.value.owner.value;
      assert multiset{o}[o] == 1 && multiset{m}[m] == 1;
    }
  }

  lemma LastLine(d: seq<Desc>, m: Module)
    requires d != []
    ensures |RequestedLines(d, m)| ==
      |RequestedLines(d[..|d| - 1], m)| + if Held(d[|d| - 1]) == multiset{m} then 1 else 0
  {
    var n := |d| - 1;
    var before := RequestedLines(d[..n], m);
    if Held(d[n]) == multiset{m} {
      assert RequestedLines(d, m) == before + {n};
    } else {
      assert RequestedLines(d, m) == before;
    }
  }

  /** Conservation: after any run from boot, the references gpiolib holds on a module are exactly
      as many as there are requested lines of that module's chips. */
  lemma ReferencesEqualRequestedLines(n: nat, calls: seq<Call>, m: Module)
    requires Legal(Boot(n), calls)
    ensures var t := Run(Boot(n), calls); t.refs[m] == |RequestedLines(t.desc, m)|
  {
    BootInv(n);
    RunKeepsInv(Boot(n), calls);
    OwnersCountsLines(Run(Boot(n), calls).desc, m);
  }

  /** No leak: after any run from boot a line reports edges exactly when it has an id, when that id
      is live and names it, and when one handler is installed for it; that handler listens to the
      mirrored edges; no other line has the id; and the line is exported, requested and managed
      by a chip that owns its block. */
  lemma LinesNeverLeak(n: nat, calls: seq<Call>, g: nat, h: nat)
    requires Legal(Boot(n), calls) && g < n && h < n
    ensures |Run(Boot(n), calls).desc| == n
    ensures var t := Run(Boot(n), calls);
      var d := t.desc[g];
      && (Trigger(d.flags) != NO_EDGES <==> d.flags.id != 0)
      && (Trigger(d.flags) != NO_EDGES <==> d.flags.id in t.idr && t.idr[d.flags.id] == g)
      && (if Trigger(d.flags) != NO_EDGES
          then d.actions == [Physical(Irq(t, g), Trigger(d.flags), d.flags.activeLow)] && d.valueRefs == 1
          else d.actions == [] && d.valueRefs == 0)
      && (d.flags.id != 0 && g != h ==> t.desc[h].flags.id != d.flags.id)
      && (Trigger(d.flags) != NO_EDGES ==> d.flags.exported)
      && (d.flags.exported ==> d.flags.requested)
      && (d.flags.requested ==> d.chip.Some? && OwnsBlock(t, d.chip.value) && InBlock(t, d.chip.value, g))
  {
    BootInv(n);
    RunKeepsInv(Boot(n), calls);
    SizeStays(Boot(n), calls);
    var t := Run(Boot(n), calls);
    assert LineOk(t, g) && LineOk(t, h);
  }

  /** Every live id belongs to a line that reports edges, so ids never outlive their line. */
  lemma LiveIdsAreInUse(n: nat, calls: seq<Call>, id: nat)
    requires Legal(Boot(n), calls) && id in Run(Boot(n), calls).idr
    ensures var t := Run(Boot(n), calls);
      t.idr[id] < |t.desc| && Trigger(t.desc[t.idr[id]].flags) != NO_EDGES
      && t.desc[t.idr[id]].flags.id == id
  {
    BootInv(n);
    RunKeepsInv(Boot(n), calls);
    var t := Run(Boot(n), calls);
    assert LineOk(t, t.idr[id]);
  }

  /** After any run gpio_export gives a status exactly if sysfs is not ready, the number is no GPIO, or
      the line has a chip. So it is safe on requested lines, as its documentation asks, and there it
      succeeds once, provided the device can be created. */
  lemma ExportFaultsIff(n: nat, calls: seq<Call>, g: int, ready: bool, deviceStatus: int)
    requires Legal(Boot(n), calls)
    ensures |Run(Boot(n), calls).desc| == n
    ensures var t := Run(Boot(n), calls);
      var a := Export(t, g, ready, deviceStatus).1;
      && (a == Fault <==> ready && 0 <= g < n && t.desc[g].chip.None?)
      && (ready && 0 <= g < n && t.desc[g].flags.requested ==>
            (a == Returned(0) <==> !t.desc[g].flags.exported && deviceStatus == 0) && a != Fault)
  {
    BootInv(n);
    RunKeepsInv(Boot(n), calls);
    SizeStays(Boot(n), calls);
    if 0 <= g < n {
      assert LineOk(Run(Boot(n), calls), g);
    }
  }

  /** An unchecked export can fault right after boot, where it should have failed with -EINVAL. */
  lemma ExportFaultsAtBoot(n: nat, g: nat, deviceStatus: int)
    requires g < n
    ensures Legal(Boot(n), [])
    ensures Export(Run(Boot(n), []), g, true, deviceStatus).1 == Fault
  {
  }

  lemma {:induction false} SizeStays(s: State, calls: seq<Call>)
    requires Legal(s, calls)
    ensures |Run(s, calls).desc| == |s.desc|
    decreases calls
  {
    if calls != [] {
      StepKeepsSize(s, calls[0]);
      SizeStays(Step(s, calls[0]), calls[1..]);
    }
  }

  lemma StepKeepsSize(s: State, call: Call)
    requires Allowed(s, call)
    ensures |Step(s, call).desc| == |s.desc|
  {
    match call
    case CallRequest(g, alive, status) => assert |RequestEnter(s, g, alive).0.desc| == |s.desc|;
    case CallDirection(g, input, alive, _, _) => assert |DirEnter(s, g, input, alive).0.desc| == |s.desc|;
    case _ =>
  }
}
