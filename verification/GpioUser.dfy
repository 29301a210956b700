/** Exporting and unexporting lines on behalf of userspace. */
module GpioUser {
  import opened GpioTable
  import opened GpioLines
  import opened GpioInvariant
  import opened GpioRuns
  import opened GpioArrays

  /** export_store, after parsing its number: request, export, and remember that userspace did it. */
  function ExportStore(s: State, g: int, alive: bool, status: int, ready: bool, deviceStatus: int)
    : (State, int)
  {
    var (t, e) := Request(s, g, alive, status);
    if e < 0 || !IsGpio(t, g) then (t, e)
    else
      ExportOrFree(t, g, ready, deviceStatus)
  }

  function ExportOrFree(t: State, g: nat, ready: bool, deviceStatus: int): (State, int)
    requires g < |t.desc| && t.desc[g].chip.Some?
  {
    var (u, a) := Export(t, g, ready, deviceStatus);
    if a.status < 0 then (Free(u, g), a.status)
    else (SetFlags(u, g, u.desc[g].flags.(sysfs := true)), a.status)
  }

  /** unexport_store, after parsing: only what userspace exported may be undone. */
  function UnexportStore(s: State, g: int): (State, int) {
    if !IsGpio(s, g) || !s.desc[g].flags.sysfs then (s, -EINVAL)
    else (Free(SetFlags(s, g, s.desc[g].flags.(sysfs := false)), g), 0)
  }

  lemma MarkKeepsInv(s: State, g: nat, sysfs: bool)
    requires Inv(s) && g < |s.desc|
    ensures Inv(SetFlags(s, g, s.desc[g].flags.(sysfs := sysfs)))
  {
    assert LineOk(s, g);
    KeepInv(s, SetFlags(s, g, s.desc[g].flags.(sysfs := sysfs)), g);
  }

  lemma ExportOrFreeKeepsInv(t: State, g: nat, ready: bool, deviceStatus: int)
    requires Inv(t) && g < |t.desc| && t.desc[g].chip.Some?
    ensures Inv(ExportOrFree(t, g, ready, deviceStatus).0)
  {
    var u := Export(t, g, ready, deviceStatus).0;
    assert Inv(u) by {
      ExportKeepsInv(t, g, ready, deviceStatus);
    }
    assert Inv(Free(u, g)) by {
      FreeKeepsInv(u, g);
    }
    assert Inv(SetFlags(u, g, u.desc[g].flags.(sysfs := true))) by {
      MarkKeepsInv(u, g, true);
    }
  }

  lemma RequestClaims(s: State, g: int, alive: bool, status: int)
    requires Request(s, g, alive, status).1 >= 0
    ensures IsGpio(s, g) && s.desc[g].chip.Some? && !s.desc[g].flags.requested
    ensures Request(s, g, alive, status).0 == Claim(s, g, s.desc[g].chip.value)
  {
  }

  /** A failing export from userspace leaves no trace. Unlike gpio_request_one it treats a positive
      answer of chip->request as success, so here nothing leaks. */
  lemma FailedExportStoreRestores(s: State, g: int, alive: bool, status: int, ready: bool, deviceStatus: int)
    requires Inv(s)
    requires ExportStore(s, g, alive, status, ready, deviceStatus).1 < 0
    ensures Restored(s, ExportStore(s, g, alive, status, ready, deviceStatus).0)
  {
    if Request(s, g, alive, status).1 < 0 {
      FailedRequestRestoresIff(s, g, alive, status);
    } else {
      RequestClaims(s, g, alive, status);
      RequestKeepsInv(s, g, alive, status);
      FailedExportFrees(s, Request(s, g, alive, status).0, g, ready, deviceStatus);
    }
  }

  lemma FailedExportFrees(s: State, t: State, g: nat, ready: bool, deviceStatus: int)
    requires Inv(s) && Inv(t) && g < |s.desc| && s.desc[g].chip.Some? && !s.desc[g].flags.requested
    requires t == Claim(s, g, s.desc[g].chip.value)
    requires ExportOrFree(t, g, ready, deviceStatus).1 < 0
    ensures Restored(s, ExportOrFree(t, g, ready, deviceStatus).0)
  {
    assert LineOk(s, g);
    FreeRestores(s, t, g);
  }

  /** `u` differs from `s` only in line `g`, which userspace has exported, and in its id. */
  predicate ExportedSince(s: State, u: State, g: nat) {
    && g < |s.desc| && |u.desc| == |s.desc| && u.base == s.base
    && !s.desc[g].flags.requested && !s.desc[g].flags.sysfs
    && u.desc[g].flags.requested && u.desc[g].flags.sysfs
    && u.desc[g].chip == s.desc[g].chip && u.desc[g].flags.reserved == s.desc[g].flags.reserved
    && (forall h | 0 <= h < |s.desc| && h != g :: u.desc[h] == s.desc[h])
    && (forall id | id in s.idr :: id in u.idr && u.idr[id] == s.idr[id])
    && (forall id | id in u.idr && u.idr[id] != g :: id in s.idr)
  }

  /** Unexporting in any later state that differs only in the exported line gives that line back, with
      its handler, its id and its module reference. */
  lemma UnexportStoreRestores(s: State, u: State, g: nat)
    requires Inv(s) && Inv(u) && ExportedSince(s, u, g)
    ensures UnexportStore(u, g).1 == 0 && Restored(s, UnexportStore(u, g).0)
  {
    var v := SetFlags(u, g, u.desc[g].flags.(sysfs := false));
    assert Inv(v) by {
      MarkKeepsInv(u, g, false);
    }
    assert Inv(Free(v, g)) by {
      FreeKeepsInv(v, g);
    }
    assert SameLines(s, Free(v, g)) by {
      IdsAfterUnexport(s, v, g);
      QuietLine(s, v, g);
      RestOfTable(s, v, g);
    }
    SameLinesSameReferences(s, Free(v, g));
  }

  lemma RestOfTable(s: State, v: State, g: nat)
    requires g < |s.desc| && |v.desc| == |s.desc| && v.base == s.base
    requires forall h | 0 <= h < |s.desc| && h != g :: v.desc[h] == s.desc[h]
    requires Unexport(v, g).idr == s.idr && SameLine(s.desc[g], Free(v, g).desc[g])
    ensures SameLines(s, Free(v, g))
  {
    FreeTouchesOneLine(v, g);
  }

  lemma QuietLine(s: State, v: State, g: nat)
    requires Inv(s) && Inv(v) && g < |s.desc| && |v.desc| == |s.desc|
    requires !s.desc[g].flags.requested && !s.desc[g].flags.sysfs
    requires v.desc[g].flags.requested && !v.desc[g].flags.sysfs
    requires v.desc[g].chip == s.desc[g].chip && v.desc[g].flags.reserved == s.desc[g].flags.reserved
    ensures SameLine(s.desc[g], Free(v, g).desc[g])
  {
    UnexportKeepsInv(v, g);
    assert LineOk(s, g) && LineOk(v, g) && LineOk(Unexport(v, g), g);
  }

  lemma IdsAfterUnexport(s: State, v: State, g: nat)
    requires Inv(s) && Inv(v) && g < |s.desc| && |v.desc| == |s.desc|
    requires !s.desc[g].flags.requested
    requires forall id | id in s.idr :: id in v.idr && v.idr[id] == s.idr[id]
    requires forall id | id in v.idr && v.idr[id] != g :: id in s.idr
    ensures Unexport(v, g).idr == s.idr
  {
    UnexportDropsId(v, g);
    NoIdOfQuietLine(s, g);
  }

  /** Unexporting drops exactly the ids that name the line. */
  lemma UnexportDropsId(v: State, g: nat)
    requires Inv(v) && g < |v.desc|
    ensures forall id :: id in Unexport(v, g).idr <==> id in v.idr && v.idr[id] != g
    ensures forall id | id in Unexport(v, g).idr :: Unexport(v, g).idr[id] == v.idr[id]
  {
    assert LineOk(v, g);
    assert forall id | id in v.idr && v.idr[id] == g :: id == v.desc[g].flags.id;
  }

  lemma NoIdOfQuietLine(s: State, g: nat)
    requires Inv(s) && g < |s.desc| && !s.desc[g].flags.requested
    ensures forall id | id in s.idr :: s.idr[id] != g
  {
    assert LineOk(s, g);
  }

  // ----- from the export to the unexport -----

  /** A successful export from userspace marks the line and touches nothing else. */
  lemma ExportStoreMarks(s: State, g: int, alive: bool, status: int, ready: bool, deviceStatus: int)
    requires Inv(s) && ExportStore(s, g, alive, status, ready, deviceStatus).1 >= 0
    requires IsGpio(s, g) ==> !s.desc[g].flags.sysfs
    ensures IsGpio(s, g)
    ensures var u := ExportStore(s, g, alive, status, ready, deviceStatus).0;
      Inv(u) && ExportedSince(s, u, g)
  {
    RequestClaims(s, g, alive, status);
    RequestKeepsInv(s, g, alive, status);
    var t := Request(s, g, alive, status).0;
    ExportOrFreeKeepsInv(t, g, ready, deviceStatus);
    NoIdOfQuietLine(s, g);
  }

  /** What userspace may do to an exported line: write its edge, active_low and direction files. */
  predicate OnLine(call: Call, g: int) {
    match call
    case CallEdge(h, _, _) => h == g
    case CallActiveLow(h, _, _) => h == g
    case CallDirection(h, _, _, _, _) => h == g
    case _ => false
  }

  /** `t` differs from `u` only in line `g`, which keeps its chip and its marks, and in its ids. */
  predicate SameButEdges(u: State, t: State, g: nat) {
    && g < |u.desc| && |t.desc| == |u.desc| && t.base == u.base
    && t.desc[g].chip == u.desc[g].chip
    && t.desc[g].flags.requested == u.desc[g].flags.requested
    && t.desc[g].flags.sysfs == u.desc[g].flags.sysfs
    && t.desc[g].flags.reserved == u.desc[g].flags.reserved
    && (forall h | 0 <= h < |u.desc| && h != g :: t.desc[h] == u.desc[h])
    && (forall id | id in u.idr && u.idr[id] != g :: id in t.idr && t.idr[id] == u.idr[id])
    && (forall id | id in t.idr && t.idr[id] != g :: id in u.idr && t.idr[id] == u.idr[id])
  }

  lemma SameButEdgesTwice(u: State, t: State, v: State, g: nat)
    requires SameButEdges(u, t, g) && SameButEdges(t, v, g)
    ensures SameButEdges(u, v, g)
  {
  }

  lemma QuietIsSameButEdges(u: State, g: nat)
    requires Inv(u) && g < |u.desc|
    ensures SameButEdges(u, Quiet(u, g), g)
  {
    assert LineOk(u, g);
    assert 0 !in u.idr;
  }

  lemma ArmedIsSameButEdges(u: State, g: nat, e: Edges, id: nat)
    requires g < |u.desc| && (id in u.idr ==> u.idr[id] == g)
    ensures SameButEdges(u, Armed(u, g, e, id), g)
  {
  }

  lemma SetupIsSameButEdges(u: State, g: nat, want: Edges, env: IrqEnv)
    requires Inv(u) && g < |u.desc| && EnvOk(u, g, env)
    ensures SameButEdges(u, SetupIrq(u, g, want, env).0, g)
  {
    assert LineOk(u, g);
    var t := SetupIrq(u, g, want, env).0;
    if t == Quiet(u, g) {
      QuietIsSameButEdges(u, g);
    } else if t != u {
      var id := if Trigger(u.desc[g].flags) == NO_EDGES then env.id.value else u.desc[g].flags.id;
      ArmedIsSameButEdges(u, g, want, id);
    }
  }

  lemma FlipIsSameButEdges(u: State, g: nat, low: bool, env: IrqEnv)
    requires Inv(u) && g < |u.desc| && EnvOk(u, g, env)
    ensures SameButEdges(u, SetActiveLow(u, g, low, env).0, g)
  {
    var e := Trigger(u.desc[g].flags);
    if u.desc[g].flags.activeLow != low && u.desc[g].flags.exported && e.fall != e.rise {
      assert LineOk(u, g);
      FlipThenSilence(u, g, low, env);
      FlippedQuietKeepsInv(u, g, low);
      QuietIsSameButEdges(u, g);
      SetupIsSameButEdges(FlippedQuiet(u, g, low), g, e, env);
      SameButEdgesTwice(u, FlippedQuiet(u, g, low), SetActiveLow(u, g, low, env).0, g);
    }
  }

  lemma DirectionIsSameButEdges(u: State, g: nat, input: bool, alive: bool, rs: int, status: int)
    requires g < |u.desc| && u.desc[g].flags.requested
    ensures SameButEdges(u, Direction(u, g, input, alive, rs, status).0, g)
  {
    DirectionOfRequestedLine(u, g, input, alive, rs, status);
  }

  /** No write to the files of a requested line takes or gives anything but its own ids. */
  lemma CallOnLineIsSameButEdges(u: State, g: nat, call: Call)
    requires Inv(u) && g < |u.desc| && u.desc[g].flags.requested && OnLine(call, g) && Allowed(u, call)
    ensures SameButEdges(u, Step(u, call), g)
  {
    match call
    case CallEdge(_, want, env) => if want.Some? { SetupIsSameButEdges(u, g, want.value, env); }
    case CallActiveLow(_, low, env) => FlipIsSameButEdges(u, g, low, env);
    case CallDirection(_, input, alive, rs, status) => DirectionIsSameButEdges(u, g, input, alive, rs, status);
  }

  lemma {:induction false} CallsOnLineAreSameButEdges(u: State, g: nat, calls: seq<Call>)
    requires Inv(u) && g < |u.desc| && u.desc[g].flags.requested && Legal(u, calls)
    requires forall i | 0 <= i < |calls| :: OnLine(calls[i], g)
    ensures Inv(Run(u, calls)) && SameButEdges(u, Run(u, calls), g)
    decreases calls
  {
    if calls != [] {
      var t := Step(u, calls[0]);
      CallOnLineIsSameButEdges(u, g, calls[0]);
      StepKeepsInv(u, calls[0]);
      CallsOnLineAreSameButEdges(t, g, calls[1..]);
      SameButEdgesTwice(u, t, Run(t, calls[1..]), g);
    }
  }

  /** Userspace exports a line, writes its edge, active_low and direction files in any order and number
      with any outcome, and unexports it: the line, its handler, its id and its module reference are
      given back, and nothing else was touched. */
  lemma UnexportStoreUndoesExport(s: State, g: int, alive: bool, status: int, ready: bool, deviceStatus: int,
                                  calls: seq<Call>)
    requires Inv(s) && ExportStore(s, g, alive, status, ready, deviceStatus).1 >= 0
    requires IsGpio(s, g) ==> !s.desc[g].flags.sysfs
    requires forall i | 0 <= i < |calls| :: OnLine(calls[i], g)
    requires Legal(ExportStore(s, g, alive, status, ready, deviceStatus).0, calls)
    ensures var v := Run(ExportStore(s, g, alive, status, ready, deviceStatus).0, calls);
      UnexportStore(v, g).1 == 0 && Restored(s, UnexportStore(v, g).0)
  {
    var u := ExportStore(s, g, alive, status, ready, deviceStatus).0;
    ExportStoreMarks(s, g, alive, status, ready, deviceStatus);
    CallsOnLineAreSameButEdges(u, g, calls);
    ExportedSinceStays(s, u, Run(u, calls), g);
    UnexportStoreRestores(s, Run(u, calls), g);
  }

  lemma ExportedSinceStays(s: State, u: State, v: State, g: nat)
    requires Inv(s) && ExportedSince(s, u, g) && SameButEdges(u, v, g)
    ensures ExportedSince(s, v, g)
  {
    NoIdOfQuietLine(s, g);
  }
}
