/** The flags word of one line over any run of calls, next to the fields that the model keeps. */
module FlagRuns {
  import opened Common
  import opened GpioTable
  import opened GpioLines
  import opened GpioInvariant
  import opened GpioRuns
  import opened GpioArrays
  import opened FlagPacking

  lemma PutDecodes<W(!new)>(k: Packing<W>, w: W, b: Bit, on: bool)
    requires Sound(k)
    ensures k.decode(k.put(w, b, on)) == PutFlag(k.decode(w), b, on)
  {
  }

  // ----- gpio_setup_irq and its callers on a word -----

  /** What gpio_setup_irq finds for line `g` in state `s`; the id in the word is looked up as it is. */
  function Find<W>(k: Packing<W>, s: State, g: nat, w: W, env: IrqEnv, id: Option<W>): Found<W>
    requires g < |s.desc|
  {
    Found(Irq(s, g) >= 0, k.decode(w).id in s.idr, if env.fileFound then id else None, env.irqStatus >= 0)
  }

  /** The allocator's answer, and the word that it is stored as. */
  predicate SameId<W>(k: Packing<W>, env: IrqEnv, id: Option<W>) {
    env.id == NumberOf(k, id)
  }

  /** Along every path of gpio_setup_irq - nothing to do, no interrupt, switched off, no file, no id, an
      id that does not fit, no handler, or armed - the word it leaves decodes to the specified flags. */
  lemma SetupInStep<W(!new)>(k: Packing<W>, s: State, g: nat, w: W, want: Edges, env: IrqEnv, id: Option<W>)
    requires Sound(k) && g < |s.desc| && SetupReady(s, g) && EnvOk(s, g, env) && SameId(k, env, id)
    requires k.decode(w) == s.desc[g].flags
    ensures k.decode(k.setUp(w, want, Find(k, s, g, w, env, id))) == SetupIrq(s, g, want, env).0.desc[g].flags
  {
    var f := Find(k, s, g, w, env, id);
    SetupFlagsInStep(s, g, want, env, NumberOf(k, f.id));
  }

  lemma SetupFlagsInStep(s: State, g: nat, want: Edges, env: IrqEnv, id: Option<nat>)
    requires g < |s.desc| && SetupReady(s, g) && EnvOk(s, g, env)
    requires id == if env.fileFound then env.id else None
    ensures var live := s.desc[g].flags.id in s.idr;
      && SetupFlags(s.desc[g].flags, want, Irq(s, g) >= 0, live, id, env.irqStatus >= 0)
           == SetupIrq(s, g, want, env).0.desc[g].flags
      && (live || s.desc[g].flags.id == 0)
  {
  }

  /** sysfs_set_active_low: flip, then silence the line and set it up again from the trigger bits that
      the word had. */
  function FlipWord<W>(k: Packing<W>, s: State, g: nat, w: W, low: bool, env: IrqEnv, id: Option<W>): W
    requires g < |s.desc|
  {
    if k.decode(w).activeLow == low then w
    else
      var v := k.put(w, ActiveLow, low);
      if k.decode(v).exported && k.decode(v).rise != k.decode(v).fall then
        var t := SetFlags(s, g, s.desc[g].flags.(activeLow := low));
        var quiet := k.setUp(v, NO_EDGES, Find(k, t, g, v, env, id));
        k.setUp(quiet, Trigger(k.decode(v)), Find(k, SetupIrq(t, g, NO_EDGES, env).0, g, quiet, env, id))
      else v
  }

  lemma FlipInStep<W(!new)>(k: Packing<W>, s: State, g: nat, w: W, low: bool, env: IrqEnv, id: Option<W>)
    requires Sound(k) && Inv(s) && g < |s.desc| && EnvOk(s, g, env) && SameId(k, env, id)
    requires k.decode(w) == s.desc[g].flags
    ensures k.decode(FlipWord(k, s, g, w, low, env, id)) == SetActiveLow(s, g, low, env).0.desc[g].flags
  {
    var e := Trigger(s.desc[g].flags);
    PutDecodes(k, w, ActiveLow, low);
    if s.desc[g].flags.activeLow != low && s.desc[g].flags.exported && e.fall != e.rise {
      FlippedInStep(k, s, g, k.put(w, ActiveLow, low), low, env, id);
    }
  }

  /** The two set-ups after the flip, from the flipped word `v`. */
  lemma FlippedInStep<W(!new)>(k: Packing<W>, s: State, g: nat, v: W, low: bool, env: IrqEnv, id: Option<W>)
    requires Sound(k) && Inv(s) && g < |s.desc| && EnvOk(s, g, env) && SameId(k, env, id)
    requires s.desc[g].flags.exported && Trigger(s.desc[g].flags) != NO_EDGES
    requires k.decode(v) == s.desc[g].flags.(activeLow := low)
    ensures var t := SetFlags(s, g, s.desc[g].flags.(activeLow := low));
      var q := SetupIrq(t, g, NO_EDGES, env).0;
      var e := Trigger(s.desc[g].flags);
      var quiet := k.setUp(v, NO_EDGES, Find(k, t, g, v, env, id));
      && |q.desc| == |s.desc|
      && k.decode(k.setUp(quiet, e, Find(k, q, g, quiet, env, id))) == SetupIrq(q, g, e, env).0.desc[g].flags
  {
    var t := SetFlags(s, g, s.desc[g].flags.(activeLow := low));
    var e := Trigger(s.desc[g].flags);
    InvIsReady(s, g);
    FlipIsReady(s, g, low, env);
    SetupInStep(k, t, g, v, NO_EDGES, env, id);
    SetupInStep(k, FlippedQuiet(s, g, low), g, k.setUp(v, NO_EDGES, Find(k, t, g, v, env, id)), e, env, id);
  }

  // ----- the other calls -----

  const SILENCE := IrqEnv(false, None, -1, 0)

  function UnexportWord<W>(k: Packing<W>, s: State, g: nat, w: W): W
    requires g < |s.desc|
  {
    if k.decode(w).exported then k.put(k.setUp(w, NO_EDGES, Find(k, s, g, w, SILENCE, None)), Exported, false) else w
  }

  lemma UnexportSilences(s: State, g: nat)
    requires g < |s.desc| && s.desc[g].flags.exported
    ensures Unexport(s, g).desc[g].flags == PutFlag(SetupIrq(s, g, NO_EDGES, SILENCE).0.desc[g].flags, Exported, false)
  {
  }

  lemma UnexportInStep<W(!new)>(k: Packing<W>, s: State, g: nat, w: W)
    requires Sound(k) && Inv(s) && g < |s.desc| && k.decode(w) == s.desc[g].flags
    ensures k.decode(UnexportWord(k, s, g, w)) == Unexport(s, g).desc[g].flags
  {
    if s.desc[g].flags.exported {
      InvIsReady(s, g);
      SetupInStep(k, s, g, w, NO_EDGES, SILENCE, None);
      PutDecodes(k, k.setUp(w, NO_EDGES, Find(k, s, g, w, SILENCE, None)), Exported, false);
      UnexportSilences(s, g);
    }
  }

  function FreeWord<W>(k: Packing<W>, s: State, g: nat, w: W): W
    requires g < |s.desc|
  {
    var u := UnexportWord(k, s, g, w);
    if s.desc[g].chip.Some? && k.decode(u).requested
    then k.put(k.put(u, ActiveLow, false), Requested, false) else u
  }

  lemma FreeInStep<W(!new)>(k: Packing<W>, s: State, g: nat, w: W)
    requires Sound(k) && Inv(s) && g < |s.desc| && k.decode(w) == s.desc[g].flags
    ensures k.decode(FreeWord(k, s, g, w)) == Free(s, g).desc[g].flags
  {
    UnexportInStep(k, s, g, w);
    var u := UnexportWord(k, s, g, w);
    PutDecodes(k, u, ActiveLow, false);
    PutDecodes(k, k.put(u, ActiveLow, false), Requested, false);
  }

  function RequestWord<W>(k: Packing<W>, w: W, chip: Option<Chip>, alive: bool, status: int): W {
    if chip.None? || !CanGet(chip.value, alive) || k.decode(w).requested then w
    else if chip.value.hasRequest && status < 0 then k.put(k.put(w, Requested, true), Requested, false)
    else k.put(w, Requested, true)
  }

  lemma RefusedRequestOfLine(s: State, g: nat, alive: bool, status: int)
    requires g < |s.desc|
    requires s.desc[g].chip.None? || !CanGet(s.desc[g].chip.value, alive) || s.desc[g].flags.requested
    ensures Request(s, g, alive, status).0 == s
  {
  }

  lemma ClaimedFlags(s: State, g: nat, c: Chip)
    requires g < |s.desc|
    ensures var x := PutFlag(s.desc[g].flags, Requested, true);
      && Claim(s, g, c).desc[g].flags == x
      && Unclaim(Claim(s, g, c), g, c).desc[g].flags == PutFlag(x, Requested, false)
  {
  }

  lemma RequestInStep<W(!new)>(k: Packing<W>, s: State, g: nat, w: W, alive: bool, status: int)
    requires Sound(k) && g < |s.desc| && k.decode(w) == s.desc[g].flags
    ensures k.decode(RequestWord(k, w, s.desc[g].chip, alive, status)) ==
      Request(s, g, alive, status).0.desc[g].flags
  {
    if s.desc[g].chip.Some? && CanGet(s.desc[g].chip.value, alive) && !s.desc[g].flags.requested {
      var c := s.desc[g].chip.value;
      FirstRequest(s, g, c, alive, status);
      ClaimedFlags(s, g, c);
      PutDecodes(k, w, Requested, true);
      PutDecodes(k, k.put(w, Requested, true), Requested, false);
    } else {
      RefusedRequestOfLine(s, g, alive, status);
    }
  }

  function DirectedWord<W>(k: Packing<W>, w: W, input: bool, status: int): W {
    if status == 0 then k.put(w, IsOut, !input) else w
  }

  function DirectionWord<W>(k: Packing<W>, w: W, c: Chip, input: bool, alive: bool, rs: int, status: int): W {
    if !CanDirect(c, input) then w
    else if k.decode(w).requested then DirectedWord(k, w, input, status)
    else if !CanGet(c, alive) then k.put(k.put(w, Requested, true), Requested, false)
    else if c.hasRequest && rs < 0 then k.put(w, Requested, true)
    else DirectedWord(k, k.put(w, Requested, true), input, status)
  }

  /** The end of a direction call, from a word in step with the state after its start. */
  lemma DirectedInStep<W(!new)>(k: Packing<W>, t: State, g: nat, v: W, input: bool, status: int)
    requires Sound(k) && g < |t.desc| && k.decode(v) == t.desc[g].flags
    ensures k.decode(DirectedWord(k, v, input, status)) == DirLeave(t, g, input, status).desc[g].flags
  {
    PutDecodes(k, v, IsOut, !input);
  }

  lemma HeldDirectionInStep<W(!new)>(
    k: Packing<W>, s: State, g: nat, w: W, input: bool, alive: bool, rs: int, status: int)
    requires Sound(k) && g < |s.desc| && s.desc[g].chip.Some? && InBlock(s, s.desc[g].chip.value, g)
    requires k.decode(w) == s.desc[g].flags && s.desc[g].flags.requested
    ensures k.decode(DirectionWord(k, w, s.desc[g].chip.value, input, alive, rs, status)) ==
      Direction(s, g, input, alive, rs, status).0.desc[g].flags
  {
    DirectedInStep(k, s, g, w, input, status);
  }

  lemma AutorequestInStep<W(!new)>(
    k: Packing<W>, s: State, g: nat, w: W, input: bool, alive: bool, rs: int, status: int)
    requires Sound(k) && g < |s.desc| && s.desc[g].chip.Some? && InBlock(s, s.desc[g].chip.value, g)
    requires k.decode(w) == s.desc[g].flags && !s.desc[g].flags.requested
    requires CanDirect(s.desc[g].chip.value, input) && CanGet(s.desc[g].chip.value, alive)
    ensures k.decode(DirectionWord(k, w, s.desc[g].chip.value, input, alive, rs, status)) ==
      Direction(s, g, input, alive, rs, status).0.desc[g].flags
  {
    var c := s.desc[g].chip.value;
    var t := Claim(s, g, c);
    assert DirEnter(s, g, input, alive) == (t, if c.hasRequest then DirRequest(c) else DirSet(c));
    assert Direction(s, g, input, alive, rs, status).0 ==
      if c.hasRequest && rs < 0 then t else DirLeave(t, g, input, status);
    ClaimedFlags(s, g, c);
    PutDecodes(k, w, Requested, true);
    DirectedInStep(k, t, g, k.put(w, Requested, true), input, status);
  }

  /** A refused automatic request sets the flag and clears it again. */
  lemma RefusedDirectionInStep<W(!new)>(
    k: Packing<W>, s: State, g: nat, w: W, input: bool, alive: bool, rs: int, status: int)
    requires Sound(k) && g < |s.desc| && s.desc[g].chip.Some? && InBlock(s, s.desc[g].chip.value, g)
    requires k.decode(w) == s.desc[g].flags && !s.desc[g].flags.requested
    requires !CanDirect(s.desc[g].chip.value, input) || !CanGet(s.desc[g].chip.value, alive)
    ensures k.decode(DirectionWord(k, w, s.desc[g].chip.value, input, alive, rs, status)) ==
      Direction(s, g, input, alive, rs, status).0.desc[g].flags
  {
    var x := s.desc[g].flags;
    assert Direction(s, g, input, alive, rs, status).0 == s;
    PutDecodes(k, w, Requested, true);
    PutDecodes(k, k.put(w, Requested, true), Requested, false);
    assert PutFlag(PutFlag(x, Requested, true), Requested, false) == x;
  }

  lemma DirectionInStep<W(!new)>(
    k: Packing<W>, s: State, g: nat, w: W, input: bool, alive: bool, rs: int, status: int)
    requires Sound(k) && g < |s.desc| && s.desc[g].chip.Some? && InBlock(s, s.desc[g].chip.value, g)
    requires k.decode(w) == s.desc[g].flags
    ensures k.decode(DirectionWord(k, w, s.desc[g].chip.value, input, alive, rs, status)) ==
      Direction(s, g, input, alive, rs, status).0.desc[g].flags
  {
    if s.desc[g].flags.requested {
      HeldDirectionInStep(k, s, g, w, input, alive, rs, status);
    } else if CanDirect(s.desc[g].chip.value, input) && CanGet(s.desc[g].chip.value, alive) {
      AutorequestInStep(k, s, g, w, input, alive, rs, status);
    } else {
      RefusedDirectionInStep(k, s, g, w, input, alive, rs, status);
    }
  }

  // ----- any call, and runs -----

  /** The word of line `g` after a call; `id` is the word that an answered id is stored as. */
  function LineWord<W>(k: Packing<W>, s: State, g: nat, w: W, call: Call, id: Option<W>): W
    requires Allowed(s, call) && g < |s.desc|
  {
    match call
    case CallPrepare(_, _) => w
    case CallAdd(c) =>
      var (t, e) := Add(s, c);
      if e == 0 && InBlock(t, c, g) then k.initial(c.hasDirIn) else w
    case CallRemove(_) => w
    case CallReserve(start, n) =>
      if IsGpio(s, start) && IsGpio(s, start + n - 1) && 0 < n && start <= g < FirstBusy(s.desc, start, start + n)
      then k.put(w, Reserved, true) else w
    case CallRequest(h, alive, status) => if h == g then RequestWord(k, w, s.desc[g].chip, alive, status) else w
    case CallFree(h) => if h == g then FreeWord(k, s, g, w) else w
    case CallDirection(h, input, alive, rs, status) =>
      if h == g && s.desc[g].chip.Some?
      then DirectionWord(k, w, s.desc[g].chip.value, input, alive, rs, status) else w
    case CallExport(h, ready, status) =>
      if h == g && ready && s.desc[g].chip.Some? && k.decode(w).requested && !k.decode(w).exported && status == 0
      then k.put(w, Exported, true) else w
    case CallUnexport(h) => if h == g then UnexportWord(k, s, g, w) else w
    case CallEdge(h, want, env) =>
      if h == g && want.Some? && k.decode(w).exported
      then k.setUp(w, want.value, Find(k, s, g, w, env, id)) else w
    case CallActiveLow(h, low, env) => if h == g then FlipWord(k, s, g, w, low, env, id) else w
  }

  predicate IdStored<W>(k: Packing<W>, call: Call, id: Option<W>) {
    match call
    case CallEdge(_, _, env) => SameId(k, env, id)
    case CallActiveLow(_, _, env) => SameId(k, env, id)
    case _ => true
  }

  /** The line that a call is about, if it is about one. */
  function LineOf(call: Call): Option<int> {
    match call
    case CallRequest(h, _, _) => Some(h)
    case CallFree(h) => Some(h)
    case CallDirection(h, _, _, _, _) => Some(h)
    case CallExport(h, _, _) => Some(h)
    case CallUnexport(h) => Some(h)
    case CallEdge(h, _, _) => Some(h)
    case CallActiveLow(h, _, _) => Some(h)
    case _ => None
  }

  lemma SetupTouchesOneLine(s: State, h: nat, g: nat, want: Edges, env: IrqEnv)
    requires h < |s.desc| && g < |s.desc| && g != h
    ensures SetupIrq(s, h, want, env).0.desc[g] == s.desc[g] && |SetupIrq(s, h, want, env).0.desc| == |s.desc|
  {
  }

  lemma FlipTouchesOneLine(s: State, h: nat, g: nat, low: bool, env: IrqEnv)
    requires h < |s.desc| && g < |s.desc| && g != h
    ensures SetActiveLow(s, h, low, env).0.desc[g] == s.desc[g]
  {
    var t := SetFlags(s, h, s.desc[h].flags.(activeLow := low));
    SetupTouchesOneLine(t, h, g, NO_EDGES, env);
    SetupTouchesOneLine(SetupIrq(t, h, NO_EDGES, env).0, h, g, Trigger(s.desc[h].flags), env);
  }

  lemma RequestTouchesOneLine(s: State, h: int, g: nat, alive: bool, status: int)
    requires g < |s.desc| && g != h
    ensures |Request(s, h, alive, status).0.desc| == |s.desc| && Request(s, h, alive, status).0.desc[g] == s.desc[g]
  {
  }

  lemma DirectionTouchesOneLine(s: State, h: int, g: nat, input: bool, alive: bool, rs: int, status: int)
    requires g < |s.desc| && g != h
    ensures var t := Direction(s, h, input, alive, rs, status).0;
      |t.desc| == |s.desc| && t.desc[g] == s.desc[g]
  {
  }

  lemma OtherLineUntouched(s: State, g: nat, call: Call)
    requires Allowed(s, call) && g < |s.desc| && LineOf(call).Some? && LineOf(call) != Some(g)
    ensures g < |Step(s, call).desc| && Step(s, call).desc[g] == s.desc[g]
  {
    match call
    case CallRequest(h, alive, status) => RequestTouchesOneLine(s, h, g, alive, status);
    case CallFree(h) => if IsGpio(s, h) { FreeTouchesOneLine(s, h); }
    case CallDirection(h, input, alive, rs, status) => DirectionTouchesOneLine(s, h, g, input, alive, rs, status);
    case CallExport(_, _, _) =>
    case CallUnexport(h) => if IsGpio(s, h) { UnexportTouchesOneLine(s, h); }
    case CallEdge(h, want, env) => if want.Some? { SetupTouchesOneLine(s, h, g, want.value, env); }
    case CallActiveLow(h, low, env) => FlipTouchesOneLine(s, h, g, low, env);
  }

  lemma TableCallInStep<W(!new)>(k: Packing<W>, s: State, g: nat, w: W, call: Call, id: Option<W>)
    requires Sound(k) && Inv(s) && Allowed(s, call) && g < |s.desc| && k.decode(w) == s.desc[g].flags
    requires LineOf(call).None?
    ensures g < |Step(s, call).desc| && k.decode(LineWord(k, s, g, w, call, id)) == Step(s, call).desc[g].flags
  {
    match call
    case CallAdd(c) => AddInStep(k, s, g, w, c);
    case CallReserve(_, _) => PutDecodes(k, w, Reserved, true);
    case CallPrepare(_, _) =>
    case CallRemove(_) =>
  }

  lemma AddInStep<W(!new)>(k: Packing<W>, s: State, g: nat, w: W, c: Chip)
    requires Sound(k) && c in s.base && g < |s.desc| && k.decode(w) == s.desc[g].flags
    ensures var (t, e) := Add(s, c);
      |t.desc| == |s.desc| &&
      k.decode(if e == 0 && InBlock(t, c, g) then k.initial(c.hasDirIn) else w) == t.desc[g].flags
  {
    assert k.decode(k.initial(c.hasDirIn)) == FreshFlags(c);
  }

  lemma LineCallInStep<W(!new)>(k: Packing<W>, s: State, g: nat, w: W, call: Call, id: Option<W>)
    requires Sound(k) && Inv(s) && Allowed(s, call) && g < |s.desc| && k.decode(w) == s.desc[g].flags
    requires LineOf(call) == Some(g) && IdStored(k, call, id)
    ensures g < |Step(s, call).desc| && k.decode(LineWord(k, s, g, w, call, id)) == Step(s, call).desc[g].flags
  {
    StepKeepsSize(s, call);
    match call
    case CallRequest(_, alive, status) => RequestInStep(k, s, g, w, alive, status);
    case CallFree(_) => FreeInStep(k, s, g, w);
    case CallDirection(_, input, alive, rs, status) =>
      if s.desc[g].chip.Some? {
        DirectionInStep(k, s, g, w, input, alive, rs, status);
      }
    case CallExport(_, _, _) => PutDecodes(k, w, Exported, true);
    case CallUnexport(_) => UnexportInStep(k, s, g, w);
    case CallEdge(_, want, env) =>
      if want.Some? && s.desc[g].flags.exported {
        InvIsReady(s, g);
        SetupInStep(k, s, g, w, want.value, env, id);
      }
    case CallActiveLow(_, low, env) => FlipInStep(k, s, g, w, low, env, id);
  }

  /** Any call edits the word of any line as the model updates its fields. */
  lemma StepInStep<W(!new)>(k: Packing<W>, s: State, g: nat, w: W, call: Call, id: Option<W>)
    requires Sound(k) && Inv(s) && Allowed(s, call) && g < |s.desc| && k.decode(w) == s.desc[g].flags
    requires IdStored(k, call, id)
    ensures g < |Step(s, call).desc| && k.decode(LineWord(k, s, g, w, call, id)) == Step(s, call).desc[g].flags
  {
    if LineOf(call).None? {
      TableCallInStep(k, s, g, w, call, id);
    } else if LineOf(call) == Some(g) {
      LineCallInStep(k, s, g, w, call, id);
    } else {
      OtherLineUntouched(s, g, call);
    }
  }

  predicate IdsStored<W>(k: Packing<W>, calls: seq<Call>, ids: seq<Option<W>>) {
    |ids| == |calls| && forall i | 0 <= i < |calls| :: IdStored(k, calls[i], ids[i])
  }

  /** The word of line `g` after a run. */
  function RunWord<W>(k: Packing<W>, s: State, g: nat, w: W, calls: seq<Call>, ids: seq<Option<W>>): W
    requires Legal(s, calls) && |ids| == |calls| && g < |s.desc|
    decreases calls
  {
    if calls == [] then w
    else
      StepKeepsSize(s, calls[0]);
      RunWord(k, Step(s, calls[0]), g, LineWord(k, s, g, w, calls[0], ids[0]), calls[1..], ids[1..])
  }

  lemma {:induction false} SoundPackingFollowsRuns<W(!new)>(
    k: Packing<W>, s: State, g: nat, w: W, calls: seq<Call>, ids: seq<Option<W>>)
    requires Sound(k) && Inv(s) && Legal(s, calls) && IdsStored(k, calls, ids)
    requires g < |s.desc| && k.decode(w) == s.desc[g].flags
    ensures g < |Run(s, calls).desc|
    ensures k.decode(RunWord(k, s, g, w, calls, ids)) == Run(s, calls).desc[g].flags
    decreases calls
  {
    if calls != [] {
      StepKeepsInv(s, calls[0]);
      StepInStep(k, s, g, w, calls[0], ids[0]);
      SoundPackingFollowsRuns(k, Step(s, calls[0]), g, LineWord(k, s, g, w, calls[0], ids[0]), calls[1..], ids[1..]);
    }
  }

}

/** The driver's flags words over any run from boot. */
module FlagWordRuns {
  import opened Common
  import opened GpioTable
  import opened GpioLines
  import opened GpioRuns
  import opened Words
  import opened FlagPacking
  import opened FlagWord
  import opened FlagRuns

  /** After any run from boot, where the word is 0, the flags word that the driver has edited bit by bit
      stands for the fields of the model, and the id above ID_SHIFT is 0 exactly while no trigger bit is
      set. `ids` are the words that the allocator's answers are stored as. */
  lemma WordsFollowRuns(n: nat, g: nat, calls: seq<Call>, ids: seq<Option<Word>>)
    requires Legal(Boot(n), calls) && IdsStored(Driver(Number), calls, ids) && g < n
    ensures g < |Run(Boot(n), calls).desc|
    ensures var v := RunWord(Driver(Number), Boot(n), g, 0, calls, ids);
      && Decode(v, Number) == Run(Boot(n), calls).desc[g].flags
      && (v >> 16 == 0 <==> v & TRIGGER_MASK == 0)
  {
    NumberCounts();
    DriverIsSound(Number);
    BootWord(Number);
    BootInv(n);
    RunKeepsInv(Boot(n), calls);
    SoundPackingFollowsRuns(Driver(Number), Boot(n), g, 0, calls, ids);
    LineInOrder(Run(Boot(n), calls), g);
    WordInOrder(RunWord(Driver(Number), Boot(n), g, 0, calls, ids), Number);
  }

  lemma BootWord(number: Word -> nat)
    requires Counts(number)
    ensures Decode(0, number) == Flags(false, false, false, false, false, false, false, false, 0)
  {
    assert Contents(0).id == 0;
  }

  lemma LineInOrder(s: State, g: nat)
    requires Inv(s) && g < |s.desc|
    ensures s.desc[g].flags.id == 0 <==> Trigger(s.desc[g].flags) == NO_EDGES
  {
    assert LineOk(s, g);
  }
}
