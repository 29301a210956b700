/** gpiolib calls of several threads, interleaved wherever the driver gives up its spinlock: a chip
    callback may run in one thread while the others go on calling. */
module GpioRaces {
  import opened Common
  import opened GpioTable
  import opened GpioLines
  import opened GpioInvariant
  import opened GpioRuns
  import opened GpioArrays

  type Thread = nat

  /** Where a thread stands between two critical sections. */
  datatype Pc =
    | InRequest(gpio: nat, chip: Chip)
    | Unexported(gpio: nat)
    | InFree(gpio: nat, chip: Chip)
    | InDirRequest(gpio: nat, chip: Chip, input: bool)
    | InDirection(gpio: nat, chip: Chip, input: bool)

  /** The table, the threads between two critical sections, and who requested each line. */
  datatype Sys = Sys(s: State, pc: map<Thread, Pc>, holder: map<nat, Thread>)

  datatype Move =
    | Whole(call: Call)
    | RequestStart(t: Thread, gpio: int, alive: bool)
    | RequestEnd(t: Thread, status: int)
    | FreeStart(t: Thread, gpio: int)
    | FreeLock(t: Thread)
    | FreeEnd(t: Thread)
    | DirStart(t: Thread, gpio: int, input: bool, alive: bool)
    | DirRequestEnd(t: Thread, status: int)
    | DirEnd(t: Thread, status: int)
    | ExportBy(t: Thread, gpio: int, ready: bool, status: int)
    | Sysfs(after: State)

  /** Calls that run in one critical section. */
  predicate RunsWhole(call: Call) {
    call.CallPrepare? || call.CallAdd? || call.CallRemove? || call.CallReserve?
    || call.CallUnexport? || call.CallEdge? || call.CallActiveLow?
  }

  predicate HeldBy(y: Sys, g: int, t: Thread) {
    g >= 0 && g in y.holder && y.holder[g] == t
  }

  /** What sysfs calls may do to a line, even to one that is in disorder: anything but taking it,
      freeing it, or moving it to another chip. */
  predicate SysfsStep(s: State, u: State) {
    && |u.desc| == |s.desc| && u.base == s.base && u.refs == s.refs
    && forall g | 0 <= g < |s.desc| ::
         u.desc[g].chip == s.desc[g].chip && u.desc[g].flags.requested == s.desc[g].flags.requested
  }

  /** The only discipline asked of the threads: a requested line is freed and redirected by the thread
      that requested it. Any thread may export, unexport or set up any line at any time. */
  predicate Enabled(y: Sys, a: Move) {
    match a
    case Whole(call) => RunsWhole(call) && Allowed(y.s, call)
    case RequestStart(t, _, _) => t !in y.pc
    case RequestEnd(t, _) => t in y.pc && y.pc[t].InRequest?
    case FreeStart(t, g) => t !in y.pc && HeldBy(y, g, t)
    case FreeLock(t) => t in y.pc && y.pc[t].Unexported?
    case FreeEnd(t) => t in y.pc && y.pc[t].InFree?
    case DirStart(t, g, _, _) =>
      t !in y.pc && (IsGpio(y.s, g) && y.s.desc[g].flags.requested ==> HeldBy(y, g, t))
    case DirRequestEnd(t, _) => t in y.pc && y.pc[t].InDirRequest?
    case DirEnd(t, _) => t in y.pc && y.pc[t].InDirection?
    case ExportBy(t, _, _, _) => t !in y.pc
    case Sysfs(after) => SysfsStep(y.s, after)
  }

  /** What callbacks rely on: blocks, a chip under every requested line, and references counted. */
  predicate Core(s: State) {
    && TableOk(s)
    && (forall g | 0 <= g < |s.desc| && s.desc[g].flags.requested :: s.desc[g].chip.Some?)
    && s.refs == Owners(s.desc)
  }

  /** A thread between two critical sections holds its line, and the chip it is calling into is
      still the one that the table names for that line. */
  predicate ThreadOk(y: Sys, t: Thread)
    requires t in y.pc
  {
    var p := y.pc[t];
    && HeldBy(y, p.gpio, t)
    && IsGpio(y.s, p.gpio)
    && (!p.Unexported? ==> y.s.desc[p.gpio].chip == Some(p.chip))
  }

  predicate SysInv(y: Sys) {
    && Core(y.s)
    && (forall g | g in y.holder :: IsGpio(y.s, g) && y.s.desc[g].flags.requested)
    && (forall g | 0 <= g < |y.s.desc| && y.s.desc[g].flags.requested :: g in y.holder)
    && (forall t | t in y.pc :: ThreadOk(y, t))
  }

  // ----- steps -----

  function RequestBegin(y: Sys, t: Thread, g: int, alive: bool): Sys {
    var (s, o) := RequestEnter(y.s, g, alive);
    if o.Callback? && g >= 0 then Sys(s, y.pc[t := InRequest(g, o.chip)], y.holder[g := t])
    else if o == Done(0) && g >= 0 then Sys(s, y.pc, y.holder[g := t])
    else y.(s := s)
  }

  function RequestFinish(y: Sys, t: Thread, status: int): Sys
    requires SysInv(y) && Enabled(y, RequestEnd(t, status))
  {
    var p := y.pc[t];
    assert ThreadOk(y, t);
    Sys(RequestLeave(y.s, p.gpio, p.chip, status), y.pc - {t},
        if status < 0 then y.holder - {p.gpio} else y.holder)
  }

  function FreeBegin(y: Sys, t: Thread, g: nat): Sys
    requires SysInv(y) && Enabled(y, FreeStart(t, g))
  {
    Sys(Unexport(y.s, g), y.pc[t := Unexported(g)], y.holder)
  }

  function FreeMiddle(y: Sys, t: Thread): Sys
    requires SysInv(y) && Enabled(y, FreeLock(t))
  {
    assert ThreadOk(y, t);
    var g := y.pc[t].gpio;
    var (s, o) := FreeEnter(y.s, g);
    match o
    case Callback(c) => Sys(s, y.pc[t := InFree(g, c)], y.holder)
    case Done(_) => Sys(s, y.pc - {t}, y.holder - {g})
  }

  /** The driver dereferences the line's chip here; ThreadOk says it is still there. */
  function FreeFinish(y: Sys, t: Thread): Sys
    requires SysInv(y) && Enabled(y, FreeEnd(t))
  {
    assert ThreadOk(y, t);
    var g := y.pc[t].gpio;
    Sys(FreeLeave(y.s, g), y.pc - {t}, y.holder - {g})
  }

  function DirBegin(y: Sys, t: Thread, g: int, input: bool, alive: bool): Sys {
    var (s, o) := DirEnter(y.s, g, input, alive);
    if g < 0 then y.(s := s)
    else
      match o
      case DirDone(_) => y.(s := s)
      case DirRequest(c) => Sys(s, y.pc[t := InDirRequest(g, c, input)], y.holder[g := t])
      case DirSet(c) => Sys(s, y.pc[t := InDirection(g, c, input)], y.holder[g := t])
  }

  /** A failed automatic request gives up, but keeps the line. */
  function DirRequestFinish(y: Sys, t: Thread, status: int): Sys
    requires Enabled(y, DirRequestEnd(t, status))
  {
    var p := y.pc[t];
    if status < 0 then y.(pc := y.pc - {t})
    else y.(pc := y.pc[t := InDirection(p.gpio, p.chip, p.input)])
  }

  function DirFinish(y: Sys, t: Thread, status: int): Sys
    requires SysInv(y) && Enabled(y, DirEnd(t, status))
  {
    var p := y.pc[t];
    assert ThreadOk(y, t);
    Sys(DirLeave(y.s, p.gpio, p.input, status), y.pc - {t}, y.holder)
  }

  function Next(y: Sys, a: Move): Sys
    requires SysInv(y) && Enabled(y, a)
  {
    match a
    case Whole(call) => y.(s := Step(y.s, call))
    case RequestStart(t, g, alive) => RequestBegin(y, t, g, alive)
    case RequestEnd(t, status) => RequestFinish(y, t, status)
    case FreeStart(t, g) => FreeBegin(y, t, g)
    case FreeLock(t) => FreeMiddle(y, t)
    case FreeEnd(t) => FreeFinish(y, t)
    case DirStart(t, g, input, alive) => DirBegin(y, t, g, input, alive)
    case DirRequestEnd(t, status) => DirRequestFinish(y, t, status)
    case DirEnd(t, status) => DirFinish(y, t, status)
    case ExportBy(t, g, ready, status) => y.(s := Export(y.s, g, ready, status).0)
    case Sysfs(after) => y.(s := after)
  }

  // ----- calls that run whole -----

  /** They request and free nothing, and keep the chip of every requested line. */
  predicate KeepsRequests(s: State, u: State) {
    && |u.desc| == |s.desc| && u.refs == s.refs
    && forall g | 0 <= g < |s.desc| ::
         && u.desc[g].flags.requested == s.desc[g].flags.requested
         && (s.desc[g].flags.requested ==> u.desc[g].chip == s.desc[g].chip)
  }

  lemma SetupIrqIsSysfsStep(s: State, g: nat, want: Edges, env: IrqEnv)
    requires g < |s.desc|
    ensures SysfsStep(s, SetupIrq(s, g, want, env).0)
    ensures SetupIrq(s, g, want, env).0.desc[g].flags.exported == s.desc[g].flags.exported
    ensures forall h | 0 <= h < |s.desc| && h != g :: SetupIrq(s, g, want, env).0.desc[h] == s.desc[h]
  {
    var t := SetupIrq(s, g, want, env).0;
    assert t == s || t == Quiet(s, g)
      || t == Armed(s, g, want, s.desc[g].flags.id)
      || (env.id.Some? && t == Armed(s, g, want, env.id.value));
  }

  lemma SetActiveLowIsSysfsStep(s: State, g: nat, low: bool, env: IrqEnv)
    requires g < |s.desc|
    ensures SysfsStep(s, SetActiveLow(s, g, low, env).0)
    ensures forall h | 0 <= h < |s.desc| ::
      SetActiveLow(s, g, low, env).0.desc[h].flags.exported == s.desc[h].flags.exported
  {
    var t := SetFlags(s, g, s.desc[g].flags.(activeLow := low));
    var u := SetupIrq(t, g, NO_EDGES, env).0;
    SetupIrqIsSysfsStep(t, g, NO_EDGES, env);
    SetupIrqIsSysfsStep(u, g, Trigger(s.desc[g].flags), env);
  }

  /** The concrete sysfs calls are such steps, whatever state they find. */
  lemma SysfsCallsAreSysfsSteps(s: State, call: Call)
    requires Allowed(s, call)
    requires call.CallExport? || call.CallUnexport? || call.CallEdge? || call.CallActiveLow?
    ensures SysfsStep(s, Step(s, call))
    ensures !call.CallExport? ==> forall g | 0 <= g < |s.desc| ::
      Step(s, call).desc[g].flags.exported ==> s.desc[g].flags.exported
  {
    match call
    case CallExport(_, _, _) =>
    case CallUnexport(_) =>
    case CallEdge(g, want, env) => if want.Some? { SetupIrqIsSysfsStep(s, g, want.value, env); }
    case CallActiveLow(g, low, env) => SetActiveLowIsSysfsStep(s, g, low, env);
  }

  lemma AddKeepsRequests(s: State, c: Chip)
    requires Core(s) && c in s.base
    ensures KeepsRequests(s, Add(s, c).0)
    ensures forall g | 0 <= g < |s.desc| :: Add(s, c).0.desc[g].flags.exported ==> s.desc[g].flags.exported
  {
    var (t, e) := Add(s, c);
    if e == 0 {
      assert forall j | t.base[c] <= j < t.base[c] + c.ngpio :: s.desc[j].chip.None?;
    }
  }

  lemma TableCallKeepsRequests(s: State, call: Call)
    requires Core(s) && Allowed(s, call)
    requires call.CallPrepare? || call.CallAdd? || call.CallRemove? || call.CallReserve?
    ensures TableOk(Step(s, call)) && KeepsRequests(s, Step(s, call))
    ensures forall g | 0 <= g < |s.desc| :: Step(s, call).desc[g].flags.exported ==> s.desc[g].flags.exported
  {
    match call
    case CallPrepare(c, b) => PrepareKeepsTable(s, c, b);
    case CallAdd(c) =>
      AddKeepsTable(s, c);
      AddKeepsRequests(s, c);
    case CallRemove(c) => RemoveKeepsTable(s, c);
    case CallReserve(start, n) => SameChipsKeepTable(s, Reserve(s, start, n).0);
  }

  lemma WholeKeepsRequests(s: State, call: Call)
    requires Core(s) && RunsWhole(call) && Allowed(s, call)
    ensures TableOk(Step(s, call)) && KeepsRequests(s, Step(s, call))
    ensures forall g | 0 <= g < |s.desc| :: Step(s, call).desc[g].flags.exported ==> s.desc[g].flags.exported
  {
    if call.CallPrepare? || call.CallAdd? || call.CallRemove? || call.CallReserve? {
      TableCallKeepsRequests(s, call);
    } else {
      SysfsCallsAreSysfsSteps(s, call);
      SameChipsKeepTable(s, Step(s, call));
    }
  }

  lemma KeepThreads(y: Sys, u: State)
    requires SysInv(y) && TableOk(u) && KeepsRequests(y.s, u)
    ensures SysInv(y.(s := u))
  {
    var z := y.(s := u);
    assert Core(u) by {
      assert forall g | 0 <= g < |u.desc| :: Held(y.s.desc[g]) == Held(u.desc[g]);
      OwnersPointwise(y.s.desc, u.desc);
    }
    forall t | t in z.pc ensures ThreadOk(z, t) {
      assert ThreadOk(y, t);
    }
  }

  lemma SysfsKeeps(y: Sys, u: State)
    requires SysInv(y) && SysfsStep(y.s, u)
    ensures SysInv(y.(s := u))
  {
    SameChipsKeepTable(y.s, u);
    KeepThreads(y, u);
  }

  // ----- steps on one line -----

  lemma KeepCore(s: State, u: State, g: nat)
    requires Core(s) && OnlyLine(s, u, g)
    requires u.desc[g].flags.requested ==> u.desc[g].chip.Some?
    requires u.refs + Held(s.desc[g]) == s.refs + Held(u.desc[g])
    ensures Core(u)
  {
    SameChipsKeepTable(s, u);
    KeepReferences(s, u, g);
  }

  lemma ClaimKeepsCore(s: State, g: nat, c: Chip)
    requires Core(s) && g < |s.desc| && s.desc[g].chip == Some(c) && !s.desc[g].flags.requested
    ensures Core(Claim(s, g, c))
  {
    KeepCore(s, Claim(s, g, c), g);
  }

  lemma UnclaimKeepsCore(s: State, g: nat, c: Chip)
    requires Core(s) && g < |s.desc| && s.desc[g].chip == Some(c) && s.desc[g].flags.requested
    ensures Core(Unclaim(s, g, c))
  {
    OwnersContains(s.desc, g);
    KeepCore(s, Unclaim(s, g, c), g);
  }

  lemma FreeLeaveKeepsCore(s: State, g: nat)
    requires Core(s) && g < |s.desc| && s.desc[g].chip.Some? && s.desc[g].flags.requested
    ensures Core(FreeLeave(s, g))
  {
    OwnersContains(s.desc, g);
    KeepCore(s, FreeLeave(s, g), g);
  }

  lemma DirLeaveKeepsCore(s: State, g: nat, input: bool, status: int)
    requires Core(s) && g < |s.desc|
    ensures Core(DirLeave(s, g, input, status))
  {
    if status == 0 {
      KeepCore(s, DirLeave(s, g, input, status), g);
    }
  }

  // ----- threads -----

  predicate Directing(p: Pc) {
    p.InDirRequest? || p.InDirection?
  }

  /** A line is not exported while it is being requested or freed. */
  predicate Calm(y: Sys) {
    forall t | t in y.pc && IsGpio(y.s, y.pc[t].gpio) && !Directing(y.pc[t]) ::
      !y.s.desc[y.pc[t].gpio].flags.exported
  }

  lemma HeldLine(y: Sys, t: Thread)
    requires SysInv(y) && t in y.pc
    ensures var g := y.pc[t].gpio;
      && g < |y.s.desc| && y.s.desc[g].flags.requested && y.s.desc[g].chip.Some?
      && (Calm(y) && !Directing(y.pc[t]) ==> !y.s.desc[g].flags.exported)
  {
    assert ThreadOk(y, t);
  }

  /** Thread `t` works on the line it holds, and nothing else changes. */
  ghost predicate OwnStep(y: Sys, z: Sys, t: Thread, g: nat) {
    && g < |y.s.desc| && |z.s.desc| == |y.s.desc|
    && (forall h | 0 <= h < |y.s.desc| && h != g :: z.s.desc[h] == y.s.desc[h])
    && (forall u | u in z.pc && u != t :: u in y.pc && z.pc[u] == y.pc[u])
    && (forall h | h != g :: h in z.holder <==> h in y.holder)
    && (forall h | h != g && h in y.holder && h in z.holder :: z.holder[h] == y.holder[h])
    && (g in z.holder <==> z.s.desc[g].flags.requested)
    && (g in y.holder ==> y.holder[g] == t)
    && (t in z.pc ==> ThreadOk(z, t) && z.pc[t].gpio == g)
  }

  /** It does not disturb the other threads. */
  lemma OtherThreads(y: Sys, z: Sys, t: Thread, g: nat)
    requires SysInv(y) && Core(z.s) && OwnStep(y, z, t, g)
    ensures SysInv(z)
    ensures Calm(y) && (t in z.pc && !Directing(z.pc[t]) ==> !z.s.desc[g].flags.exported) ==> Calm(z)
  {
    OtherThreadsOk(y, z, t, g);
    if Calm(y) && (t in z.pc && !Directing(z.pc[t]) ==> !z.s.desc[g].flags.exported) {
      OtherThreadsStayCalm(y, z, t, g);
    }
  }

  lemma OtherThreadsOk(y: Sys, z: Sys, t: Thread, g: nat)
    requires SysInv(y) && OwnStep(y, z, t, g)
    ensures forall u | u in z.pc :: ThreadOk(z, u)
  {
    forall u | u in z.pc ensures ThreadOk(z, u) {
      if u != t {
        assert ThreadOk(y, u);
      }
    }
  }

  lemma OtherThreadsStayCalm(y: Sys, z: Sys, t: Thread, g: nat)
    requires SysInv(y) && OwnStep(y, z, t, g) && Calm(y)
    requires t in z.pc && !Directing(z.pc[t]) ==> !z.s.desc[g].flags.exported
    ensures Calm(z)
  {
    forall u | u in z.pc && u != t
      ensures z.pc[u].gpio != g && z.s.desc[z.pc[u].gpio] == y.s.desc[z.pc[u].gpio]
    {
      assert ThreadOk(y, u);
    }
  }

  lemma WholeKeeps(y: Sys, call: Call)
    requires SysInv(y) && RunsWhole(call) && Allowed(y.s, call)
    ensures SysInv(y.(s := Step(y.s, call)))
    ensures Calm(y) ==> Calm(y.(s := Step(y.s, call)))
  {
    WholeKeepsRequests(y.s, call);
    KeepThreads(y, Step(y.s, call));
  }

  lemma RequestBeginKeeps(y: Sys, t: Thread, g: int, alive: bool)
    requires SysInv(y) && t !in y.pc
    ensures SysInv(RequestBegin(y, t, g, alive))
    ensures Calm(y) && Inv(y.s) ==> Calm(RequestBegin(y, t, g, alive))
  {
    var (s, o) := RequestEnter(y.s, g, alive);
    if o.Callback? || o == Done(0) {
      var c := y.s.desc[g].chip.value;
      ClaimKeepsCore(y.s, g, c);
      ClaimThread(y, Claim(y.s, g, c), t, g, if c.hasRequest then y.pc[t := InRequest(g, c)] else y.pc);
      assert Inv(y.s) ==> LineOk(y.s, g);
    }
  }

  lemma ClaimThread(y: Sys, s: State, t: Thread, g: nat, pc: map<Thread, Pc>)
    requires SysInv(y) && Core(s) && t !in y.pc && g < |y.s.desc| && |s.desc| == |y.s.desc|
    requires !y.s.desc[g].flags.requested && s.desc[g].flags.requested && s.desc[g].chip.Some?
    requires forall h | 0 <= h < |y.s.desc| && h != g :: s.desc[h] == y.s.desc[h]
    requires pc == y.pc || pc == y.pc[t := InRequest(g, s.desc[g].chip.value)]
    ensures SysInv(Sys(s, pc, y.holder[g := t]))
    ensures Calm(y) && !s.desc[g].flags.exported ==> Calm(Sys(s, pc, y.holder[g := t]))
  {
    OtherThreads(y, Sys(s, pc, y.holder[g := t]), t, g);
  }

  lemma RequestFinishKeeps(y: Sys, t: Thread, status: int)
    requires SysInv(y) && Enabled(y, RequestEnd(t, status))
    ensures SysInv(RequestFinish(y, t, status))
    ensures Calm(y) ==> Calm(RequestFinish(y, t, status))
  {
    if status < 0 {
      RefusalKeeps(y, t, status);
    } else {
      HeldLine(y, t);
      KeepHolding(y, y.s, t);
    }
  }

  lemma RefusalKeeps(y: Sys, t: Thread, status: int)
    requires SysInv(y) && Enabled(y, RequestEnd(t, status)) && status < 0
    ensures SysInv(RequestFinish(y, t, status))
    ensures Calm(y) ==> Calm(RequestFinish(y, t, status))
  {
    assert ThreadOk(y, t);
    HeldLine(y, t);
    UnclaimKeepsCore(y.s, y.pc[t].gpio, y.pc[t].chip);
    ReleaseThread(y, Unclaim(y.s, y.pc[t].gpio, y.pc[t].chip), t);
  }

  /** A thread gives up the line it holds. */
  lemma ReleaseIsOwnStep(y: Sys, s: State, t: Thread)
    requires SysInv(y) && t in y.pc && |s.desc| == |y.s.desc|
    requires var g := y.pc[t].gpio;
      && g < |s.desc| && !s.desc[g].flags.requested
      && forall h | 0 <= h < |s.desc| && h != g :: s.desc[h] == y.s.desc[h]
    ensures OwnStep(y, Sys(s, y.pc - {t}, y.holder - {y.pc[t].gpio}), t, y.pc[t].gpio)
  {
    assert ThreadOk(y, t);
  }

  lemma ReleaseThread(y: Sys, s: State, t: Thread)
    requires SysInv(y) && Core(s) && t in y.pc && |s.desc| == |y.s.desc|
    requires var g := y.pc[t].gpio;
      && g < |s.desc| && !s.desc[g].flags.requested
      && forall h | 0 <= h < |s.desc| && h != g :: s.desc[h] == y.s.desc[h]
    ensures SysInv(Sys(s, y.pc - {t}, y.holder - {y.pc[t].gpio}))
    ensures Calm(y) ==> Calm(Sys(s, y.pc - {t}, y.holder - {y.pc[t].gpio}))
  {
    ReleaseIsOwnStep(y, s, t);
    OtherThreads(y, Sys(s, y.pc - {t}, y.holder - {y.pc[t].gpio}), t, y.pc[t].gpio);
  }

  lemma FreeBeginKeeps(y: Sys, t: Thread, g: nat)
    requires SysInv(y) && Enabled(y, FreeStart(t, g))
    ensures SysInv(FreeBegin(y, t, g))
    ensures Calm(y) ==> Calm(FreeBegin(y, t, g))
  {
    UnexportedLine(y.s, g);
    assert Core(Unexport(y.s, g)) by {
      SysfsKeeps(y, Unexport(y.s, g));
    }
    FreeThread(y, Unexport(y.s, g), t, Unexported(g));
  }

  lemma UnexportedLine(s: State, g: nat)
    requires g < |s.desc|
    ensures SysfsStep(s, Unexport(s, g)) && !Unexport(s, g).desc[g].flags.exported
    ensures forall h | 0 <= h < |s.desc| && h != g :: Unexport(s, g).desc[h] == s.desc[h]
  {
  }

  lemma FreeThread(y: Sys, s: State, t: Thread, p: Pc)
    requires SysInv(y) && Core(s) && |s.desc| == |y.s.desc| && HeldBy(y, p.gpio, t) && p.gpio < |s.desc|
    requires forall h | 0 <= h < |s.desc| && h != p.gpio :: s.desc[h] == y.s.desc[h]
    requires s.desc[p.gpio].flags.requested && !Directing(p)
    requires p.Unexported? || Some(p.chip) == s.desc[p.gpio].chip
    ensures SysInv(Sys(s, y.pc[t := p], y.holder))
    ensures Calm(y) && !s.desc[p.gpio].flags.exported ==> Calm(Sys(s, y.pc[t := p], y.holder))
  {
    OtherThreads(y, Sys(s, y.pc[t := p], y.holder), t, p.gpio);
  }

  lemma FreeMiddleIs(y: Sys, t: Thread)
    requires SysInv(y) && Enabled(y, FreeLock(t))
    ensures var g := y.pc[t].gpio;
      && g < |y.s.desc| && y.s.desc[g].chip.Some? && y.s.desc[g].flags.requested
      && FreeMiddle(y, t) ==
           if y.s.desc[g].chip.value.hasFree then Sys(y.s, y.pc[t := InFree(g, y.s.desc[g].chip.value)], y.holder)
           else Sys(FreeLeave(y.s, g), y.pc - {t}, y.holder - {g})
  {
    assert ThreadOk(y, t);
  }

  lemma FreeMiddleKeeps(y: Sys, t: Thread)
    requires SysInv(y) && Enabled(y, FreeLock(t))
    ensures SysInv(FreeMiddle(y, t))
    ensures Calm(y) ==> Calm(FreeMiddle(y, t))
  {
    FreeMiddleIs(y, t);
    if HasFreeHook(y, t) {
      HookKeeps(y, t);
    } else {
      NoHookKeeps(y, t);
    }
  }

  lemma NoHookKeeps(y: Sys, t: Thread)
    requires SysInv(y) && Enabled(y, FreeLock(t))
    ensures var g := y.pc[t].gpio;
      g < |y.s.desc| && y.s.desc[g].chip.Some? &&
      var z := Sys(FreeLeave(y.s, g), y.pc - {t}, y.holder - {g});
      SysInv(z) && (Calm(y) ==> Calm(z))
  {
    HeldLine(y, t);
    FreeLeaveKeepsCore(y.s, y.pc[t].gpio);
    ReleaseThread(y, FreeLeave(y.s, y.pc[t].gpio), t);
  }

  lemma HookKeeps(y: Sys, t: Thread)
    requires SysInv(y) && Enabled(y, FreeLock(t)) && HasFreeHook(y, t)
    ensures var g := y.pc[t].gpio;
      var z := Sys(y.s, y.pc[t := InFree(g, y.s.desc[g].chip.value)], y.holder);
      SysInv(z) && (Calm(y) ==> Calm(z))
  {
    HeldLine(y, t);
    assert ThreadOk(y, t);
    FreeThread(y, y.s, t, InFree(y.pc[t].gpio, y.s.desc[y.pc[t].gpio].chip.value));
  }

  lemma FreeFinishKeeps(y: Sys, t: Thread)
    requires SysInv(y) && Enabled(y, FreeEnd(t))
    ensures SysInv(FreeFinish(y, t))
    ensures Calm(y) ==> Calm(FreeFinish(y, t))
  {
    assert ThreadOk(y, t);
    FreeLeaveKeepsCore(y.s, y.pc[t].gpio);
    ReleaseThread(y, FreeLeave(y.s, y.pc[t].gpio), t);
  }

  lemma DirBeginKeeps(y: Sys, t: Thread, g: int, input: bool, alive: bool)
    requires SysInv(y) && Enabled(y, DirStart(t, g, input, alive))
    ensures SysInv(DirBegin(y, t, g, input, alive))
    ensures Calm(y) ==> Calm(DirBegin(y, t, g, input, alive))
  {
    var (s, o) := DirEnter(y.s, g, input, alive);
    if !o.DirDone? {
      var c := y.s.desc[g].chip.value;
      if !y.s.desc[g].flags.requested {
        ClaimKeepsCore(y.s, g, c);
        assert s == Claim(y.s, g, c);
      }
      DirThread(y, s, t, g, c, if o.DirRequest? then InDirRequest(g, c, input) else InDirection(g, c, input));
    }
  }

  lemma DirThread(y: Sys, s: State, t: Thread, g: nat, c: Chip, p: Pc)
    requires SysInv(y) && Core(s) && g < |y.s.desc| && |s.desc| == |y.s.desc|
    requires forall h | 0 <= h < |y.s.desc| && h != g :: s.desc[h] == y.s.desc[h]
    requires s.desc[g].chip == Some(c) && s.desc[g].flags.requested
    requires y.s.desc[g].flags.requested ==> HeldBy(y, g, t)
    requires Directing(p) && p.gpio == g && p.chip == c
    ensures SysInv(Sys(s, y.pc[t := p], y.holder[g := t]))
    ensures Calm(y) ==> Calm(Sys(s, y.pc[t := p], y.holder[g := t]))
  {
    OtherThreads(y, Sys(s, y.pc[t := p], y.holder[g := t]), t, g);
  }

  lemma DirRequestFinishKeeps(y: Sys, t: Thread, status: int)
    requires SysInv(y) && Enabled(y, DirRequestEnd(t, status))
    ensures SysInv(DirRequestFinish(y, t, status))
    ensures Calm(y) ==> Calm(DirRequestFinish(y, t, status))
  {
    assert ThreadOk(y, t);
    OtherThreads(y, DirRequestFinish(y, t, status), t, y.pc[t].gpio);
  }

  lemma DirFinishKeeps(y: Sys, t: Thread, status: int)
    requires SysInv(y) && Enabled(y, DirEnd(t, status))
    ensures SysInv(DirFinish(y, t, status))
    ensures Calm(y) ==> Calm(DirFinish(y, t, status))
  {
    assert ThreadOk(y, t);
    var p := y.pc[t];
    DirLeaveKeepsCore(y.s, p.gpio, p.input, status);
    KeepHolding(y, DirLeave(y.s, p.gpio, p.input, status), t);
  }

  /** A thread returns and goes on holding its line. */
  lemma KeepHolding(y: Sys, s: State, t: Thread)
    requires SysInv(y) && Core(s) && t in y.pc && |s.desc| == |y.s.desc|
    requires var g := y.pc[t].gpio;
      && g < |s.desc| && s.desc[g].flags.requested
      && forall h | 0 <= h < |s.desc| && h != g :: s.desc[h] == y.s.desc[h]
    ensures SysInv(Sys(s, y.pc - {t}, y.holder))
    ensures Calm(y) ==> Calm(Sys(s, y.pc - {t}, y.holder))
  {
    assert ThreadOk(y, t);
    OtherThreads(y, Sys(s, y.pc - {t}, y.holder), t, y.pc[t].gpio);
  }

  lemma ExportByKeeps(y: Sys, t: Thread, g: int, ready: bool, status: int)
    requires SysInv(y)
    ensures SysInv(y.(s := Export(y.s, g, ready, status).0))
  {
    assert SysfsStep(y.s, Export(y.s, g, ready, status).0);
    SysfsKeeps(y, Export(y.s, g, ready, status).0);
  }

  /** Every critical section of every thread keeps what callbacks rely on, whatever sysfs does to the
      lines meanwhile. */
  lemma NextKeepsSysInv(y: Sys, a: Move)
    requires SysInv(y) && Enabled(y, a)
    ensures SysInv(Next(y, a))
    ensures Tidy(y) && !a.ExportBy? && !a.Sysfs? ==> Calm(Next(y, a))
  {
    match a
    case Whole(call) => WholeKeeps(y, call);
    case RequestStart(t, g, alive) => RequestBeginKeeps(y, t, g, alive);
    case RequestEnd(t, status) => RequestFinishKeeps(y, t, status);
    case FreeStart(t, g) => FreeBeginKeeps(y, t, g);
    case FreeLock(t) => FreeMiddleKeeps(y, t);
    case FreeEnd(t) => FreeFinishKeeps(y, t);
    case DirStart(t, g, input, alive) => DirBeginKeeps(y, t, g, input, alive);
    case DirRequestEnd(t, status) => DirRequestFinishKeeps(y, t, status);
    case DirEnd(t, status) => DirFinishKeeps(y, t, status);
    case ExportBy(t, g, ready, status) => ExportByKeeps(y, t, g, ready, status);
    case Sysfs(after) => SysfsKeeps(y, after);
  }

  // ----- lines in order -----

  /** The lines' own invariant holds too. */
  predicate Tidy(y: Sys) {
    Inv(y.s) && Calm(y)
  }

  /** The line that a move gives up: at the end of gpio_free, or when a request is refused. */
  function GivenUp(y: Sys, a: Move): Option<nat> {
    match a
    case RequestEnd(t, status) => if t in y.pc && status < 0 then Some(y.pc[t].gpio) else None
    case FreeLock(t) => if t in y.pc && !HasFreeHook(y, t) then Some(y.pc[t].gpio) else None
    case FreeEnd(t) => if t in y.pc then Some(y.pc[t].gpio) else None
    case _ => None
  }

  predicate HasFreeHook(y: Sys, t: Thread)
    requires t in y.pc
  {
    var g := y.pc[t].gpio;
    g < |y.s.desc| && y.s.desc[g].chip.Some? && y.s.desc[g].chip.value.hasFree
  }

  /** The move gives up a line that is exported at that moment. */
  predicate BreaksLine(y: Sys, a: Move) {
    var g := GivenUp(y, a);
    g.Some? && g.value < |y.s.desc| && y.s.desc[g.value].flags.exported
  }

  /** A line that is exported but not requested breaks the invariant of the lines. */
  lemma ExportedUnrequested(s: State, g: nat)
    requires g < |s.desc| && s.desc[g].flags.exported && !s.desc[g].flags.requested
    ensures !Inv(s)
  {
    assert !LineOk(s, g);
  }

  lemma UnclaimKeepsInvIff(s: State, g: nat, c: Chip)
    requires Inv(s) && g < |s.desc| && s.desc[g].chip == Some(c) && s.desc[g].flags.requested
    ensures Inv(Unclaim(s, g, c)) <==> !s.desc[g].flags.exported
  {
    if s.desc[g].flags.exported {
      ExportedUnrequested(Unclaim(s, g, c), g);
    } else {
      UnclaimKeepsInv(s, g, c);
    }
  }

  lemma FreeLeaveKeepsInvIff(s: State, g: nat)
    requires Inv(s) && g < |s.desc| && s.desc[g].chip.Some? && s.desc[g].flags.requested
    ensures Inv(FreeLeave(s, g)) <==> !s.desc[g].flags.exported
  {
    if s.desc[g].flags.exported {
      ExportedUnrequested(FreeLeave(s, g), g);
    } else {
      FreeLeaveKeepsInv(s, g);
    }
  }

  lemma RequestEndKeepsInvIff(y: Sys, t: Thread, status: int)
    requires SysInv(y) && Inv(y.s) && Enabled(y, RequestEnd(t, status))
    ensures Inv(RequestFinish(y, t, status).s) <==> !BreaksLine(y, RequestEnd(t, status))
  {
    HeldLine(y, t);
    assert ThreadOk(y, t);
    if status < 0 {
      UnclaimKeepsInvIff(y.s, y.pc[t].gpio, y.pc[t].chip);
    }
  }

  lemma FreeLockKeepsInvIff(y: Sys, t: Thread)
    requires SysInv(y) && Inv(y.s) && Enabled(y, FreeLock(t))
    ensures Inv(FreeMiddle(y, t).s) <==> !BreaksLine(y, FreeLock(t))
  {
    FreeMiddleIs(y, t);
    FreeLeaveKeepsInvIff(y.s, y.pc[t].gpio);
  }

  lemma FreeEndKeepsInvIff(y: Sys, t: Thread)
    requires SysInv(y) && Inv(y.s) && Enabled(y, FreeEnd(t))
    ensures Inv(FreeFinish(y, t).s) <==> !BreaksLine(y, FreeEnd(t))
  {
    HeldLine(y, t);
    FreeLeaveKeepsInvIff(y.s, y.pc[t].gpio);
  }

  lemma DirEndKeepsInv(y: Sys, t: Thread, status: int)
    requires SysInv(y) && Inv(y.s) && Enabled(y, DirEnd(t, status))
    ensures Inv(DirFinish(y, t, status).s)
  {
    HeldLine(y, t);
    DirLeaveKeepsInv(y.s, y.pc[t].gpio, y.pc[t].input, status);
  }

  lemma RequestStartKeepsInv(y: Sys, t: Thread, g: int, alive: bool)
    requires Inv(y.s)
    ensures Inv(RequestBegin(y, t, g, alive).s)
  {
    EnterKeepsInv(y.s, g, alive, false);
    assert RequestBegin(y, t, g, alive).s == RequestEnter(y.s, g, alive).0;
  }

  lemma DirStartKeepsInv(y: Sys, t: Thread, g: int, input: bool, alive: bool)
    requires Inv(y.s)
    ensures Inv(DirBegin(y, t, g, input, alive).s)
  {
    EnterKeepsInv(y.s, g, alive, input);
    assert DirBegin(y, t, g, input, alive).s == DirEnter(y.s, g, input, alive).0;
  }

  lemma FreeStartKeepsInv(y: Sys, t: Thread, g: nat)
    requires SysInv(y) && Inv(y.s) && Enabled(y, FreeStart(t, g))
    ensures Inv(FreeBegin(y, t, g).s)
  {
    UnexportKeepsInv(y.s, g);
  }

  lemma DirMoveKeepsInv(y: Sys, a: Move)
    requires SysInv(y) && Inv(y.s) && Enabled(y, a) && (a.DirRequestEnd? || a.DirEnd?)
    ensures Inv(Next(y, a).s)
  {
    if a.DirEnd? {
      DirEndKeepsInv(y, a.t, a.status);
    }
  }

  lemma GivingMoveKeepsInvIff(y: Sys, a: Move)
    requires SysInv(y) && Inv(y.s) && Enabled(y, a) && (a.RequestEnd? || a.FreeLock? || a.FreeEnd?)
    ensures Inv(Next(y, a).s) <==> !BreaksLine(y, a)
  {
    match a
    case RequestEnd(t, status) => RequestEndKeepsInvIff(y, t, status);
    case FreeLock(t) => FreeLockKeepsInvIff(y, t);
    case FreeEnd(t) => FreeEndKeepsInvIff(y, t);
  }

  /** The exact condition: from lines in order, a move of any thread leaves them in order unless it gives
      up a line that is exported at that moment. Exports by anyone are harmless by themselves. */
  lemma MoveKeepsInvIff(y: Sys, a: Move)
    requires SysInv(y) && Inv(y.s) && Enabled(y, a) && !a.Sysfs?
    ensures Inv(Next(y, a).s) <==> !BreaksLine(y, a)
  {
    match a
    case Whole(call) => StepKeepsInv(y.s, call);
    case FreeStart(t, g) => FreeStartKeepsInv(y, t, g);
    case ExportBy(_, g, ready, status) => ExportKeepsInv(y.s, g, ready, status);
    case RequestEnd(_, _) => GivingMoveKeepsInvIff(y, a);
    case FreeLock(_) => GivingMoveKeepsInvIff(y, a);
    case FreeEnd(_) => GivingMoveKeepsInvIff(y, a);
    case RequestStart(t, g, alive) => RequestStartKeepsInv(y, t, g, alive);
    case DirStart(t, g, input, alive) => DirStartKeepsInv(y, t, g, input, alive);
    case _ => DirMoveKeepsInv(y, a);
  }

  /** A discipline that meets the condition: only the holder exports a line. */
  predicate Orderly(y: Sys, a: Move) {
    match a
    case ExportBy(t, g, _, _) => HeldBy(y, g, t)
    case Sysfs(_) => false
    case _ => true
  }

  lemma CalmBreaksNothing(y: Sys, a: Move)
    requires SysInv(y) && Calm(y) && Enabled(y, a)
    ensures !BreaksLine(y, a)
  {
    if GivenUp(y, a).Some? {
      HeldLine(y, a.t);
    }
  }

  lemma HolderMayExport(y: Sys, t: Thread, g: int, s: State)
    requires SysInv(y) && Calm(y) && t !in y.pc && HeldBy(y, g, t) && |s.desc| == |y.s.desc|
    requires forall h | 0 <= h < |s.desc| && h != g :: s.desc[h] == y.s.desc[h]
    ensures Calm(y.(s := s))
  {
    forall u | u in y.pc ensures y.pc[u].gpio != g {
      assert ThreadOk(y, u);
    }
  }

  /** Orderly moves also keep the lines in order. */
  lemma OrderlyMoveKeepsTidy(y: Sys, a: Move)
    requires SysInv(y) && Tidy(y) && Enabled(y, a) && Orderly(y, a)
    ensures Tidy(Next(y, a))
  {
    assert Inv(Next(y, a).s) by {
      CalmBreaksNothing(y, a);
      MoveKeepsInvIff(y, a);
    }
    assert Calm(Next(y, a)) by {
      if a.ExportBy? {
        HolderMayExport(y, a.t, a.gpio, Export(y.s, a.gpio, a.ready, a.status).0);
      } else {
        NextKeepsSysInv(y, a);
      }
    }
  }

  // ----- interleaved runs -----

  predicate Schedule(y: Sys, moves: seq<Move>)
    requires SysInv(y)
    decreases moves
  {
    moves == [] || (Enabled(y, moves[0]) && (NextKeepsSysInv(y, moves[0]); Schedule(Next(y, moves[0]), moves[1..])))
  }

  function After(y: Sys, moves: seq<Move>): (z: Sys)
    requires SysInv(y) && Schedule(y, moves)
    ensures SysInv(z)
    decreases moves
  {
    if moves == [] then y
    else
      NextKeepsSysInv(y, moves[0]);
      After(Next(y, moves[0]), moves[1..])
  }

  /** The lines are in order at the start of the schedule and at every release of the lock. */
  predicate InvThroughout(y: Sys, moves: seq<Move>)
    requires SysInv(y) && Schedule(y, moves)
    decreases moves
  {
    Inv(y.s) &&
    (moves == [] || (NextKeepsSysInv(y, moves[0]); InvThroughout(Next(y, moves[0]), moves[1..])))
  }

  /** No move of the schedule gives up a line that is exported just then. */
  predicate NeverBreaks(y: Sys, moves: seq<Move>)
    requires SysInv(y) && Schedule(y, moves)
    decreases moves
  {
    moves == [] ||
    (!BreaksLine(y, moves[0]) && (NextKeepsSysInv(y, moves[0]); NeverBreaks(Next(y, moves[0]), moves[1..])))
  }

  /** Over any interleaving the whole invariant of the lines - no id, handler or reference leaks - holds
      at every release of the lock exactly if no line is given up while it is exported. */
  lemma {:induction false} LinesStayInOrderIff(y: Sys, moves: seq<Move>)
    requires SysInv(y) && Inv(y.s) && Schedule(y, moves)
    requires forall i | 0 <= i < |moves| :: !moves[i].Sysfs?
    ensures InvThroughout(y, moves) <==> NeverBreaks(y, moves)
    decreases moves
  {
    if moves != [] {
      NextKeepsSysInv(y, moves[0]);
      MoveKeepsInvIff(y, moves[0]);
      var z := Next(y, moves[0]);
      assert InvThroughout(z, moves[1..]) ==> Inv(z.s);
      if Inv(z.s) {
        LinesStayInOrderIff(z, moves[1..]);
      }
    }
  }

  /** Every move of the schedule is orderly. */
  predicate OrderlySchedule(y: Sys, moves: seq<Move>)
    requires SysInv(y) && Schedule(y, moves)
    decreases moves
  {
    moves == [] ||
    (Orderly(y, moves[0]) && (NextKeepsSysInv(y, moves[0]); OrderlySchedule(Next(y, moves[0]), moves[1..])))
  }

  /** If lines are exported by their holders only, no line is ever given up while it is exported, so the
      lines are in order at every release of the lock. */
  lemma {:induction false} LinesStayTidy(y: Sys, moves: seq<Move>)
    requires SysInv(y) && Tidy(y) && Schedule(y, moves) && OrderlySchedule(y, moves)
    ensures Tidy(After(y, moves)) && NeverBreaks(y, moves)
    decreases moves
  {
    if moves != [] {
      NextKeepsSysInv(y, moves[0]);
      CalmBreaksNothing(y, moves[0]);
      OrderlyMoveKeepsTidy(y, moves[0]);
      LinesStayTidy(Next(y, moves[0]), moves[1..]);
    }
  }

  predicate Calling(p: Pc) {
    !p.Unexported?
  }

  /** Safety of callbacks: at every point of every interleaving, a chip that is being called back
      without the lock is still registered for the line in question, and trying to remove it fails
      with -EBUSY and changes nothing. */
  lemma CalledChipCannotVanish(y: Sys, moves: seq<Move>, t: Thread)
    requires SysInv(y) && Schedule(y, moves)
    requires t in After(y, moves).pc && Calling(After(y, moves).pc[t])
    ensures var z := After(y, moves);
      var p := z.pc[t];
      && z.s.desc[p.gpio].chip == Some(p.chip)
      && OwnsBlock(z.s, p.chip) && InBlock(z.s, p.chip, p.gpio)
      && Remove(z.s, p.chip) == (z.s, -EBUSY)
  {
    var z := After(y, moves);
    assert ThreadOk(z, t);
    assert AnyRequested(z.s, z.pc[t].chip);
  }

  /** No two threads ever run a callback for the same line. */
  lemma CallbacksDoNotOverlap(y: Sys, moves: seq<Move>, t: Thread, u: Thread)
    requires SysInv(y) && Schedule(y, moves)
    requires t != u && t in After(y, moves).pc && u in After(y, moves).pc
    ensures After(y, moves).pc[t].gpio != After(y, moves).pc[u].gpio
  {
    assert ThreadOk(After(y, moves), t) && ThreadOk(After(y, moves), u);
  }

  /** Conservation holds at every release of the lock, not only between whole calls. */
  lemma ReferencesBalanceAtEveryRelease(y: Sys, moves: seq<Move>, m: Module)
    requires SysInv(y) && Schedule(y, moves)
    ensures After(y, moves).s.refs[m] == |RequestedLines(After(y, moves).s.desc, m)|
  {
    OwnersCountsLines(After(y, moves).s.desc, m);
  }

  /** Every interleaving may start at boot. */
  lemma BootSysInv(n: nat)
    ensures SysInv(Sys(Boot(n), map[], map[])) && Tidy(Sys(Boot(n), map[], map[]))
  {
    BootInv(n);
  }

  // ----- a thread alone -----

  /** If no other thread moves in between, the critical sections of a call add up to the whole call. */
  lemma RequestAlone(y: Sys, t: Thread, g: int, alive: bool, status: int)
    requires SysInv(y) && t !in y.pc
    ensures var z := RequestBegin(y, t, g, alive);
      && SysInv(z)
      && (t !in z.pc ==> z.s == Request(y.s, g, alive, status).0)
      && (t in z.pc ==> z.pc[t].InRequest? && RequestFinish(z, t, status).s == Request(y.s, g, alive, status).0)
  {
    RequestBeginKeeps(y, t, g, alive);
    RequestStarts(y, t, g, alive);
    var z := RequestBegin(y, t, g, alive);
    if t in z.pc {
      var c := y.s.desc[g].chip.value;
      FirstRequest(y.s, g, c, alive, status);
    }
  }

  lemma RequestStarts(y: Sys, t: Thread, g: int, alive: bool)
    requires t !in y.pc
    ensures var z := RequestBegin(y, t, g, alive);
      && z.s == RequestEnter(y.s, g, alive).0
      && (t in z.pc <==> RequestEnter(y.s, g, alive).1.Callback?)
      && (t in z.pc ==>
            && 0 <= g < |y.s.desc| && y.s.desc[g].chip.Some? && !y.s.desc[g].flags.requested
            && CanGet(y.s.desc[g].chip.value, alive) && y.s.desc[g].chip.value.hasRequest
            && z.pc[t] == InRequest(g, y.s.desc[g].chip.value)
            && z.s == Claim(y.s, g, y.s.desc[g].chip.value))
  {
  }

  lemma FreeAlone(y: Sys, t: Thread, g: nat)
    requires SysInv(y) && Enabled(y, FreeStart(t, g))
    ensures var z := FreeBegin(y, t, g);
      && SysInv(z) && Enabled(z, FreeLock(t))
      && FreedBy(z, t) == Free(y.s, g)
  {
    FreeBeginKeeps(y, t, g);
    var z := FreeBegin(y, t, g);
    FreeMiddleIs(z, t);
    FreeMiddleKeeps(z, t);
  }

  /** The table after the rest of gpio_free, with its callback if there is one. */
  function FreedBy(z: Sys, t: Thread): State
    requires SysInv(z) && Enabled(z, FreeLock(t))
  {
    FreeMiddleIs(z, t);
    FreeMiddleKeeps(z, t);
    var m := FreeMiddle(z, t);
    if t in m.pc then FreeFinish(m, t).s else m.s
  }

  lemma DirectionStarts(y: Sys, t: Thread, g: int, input: bool, alive: bool)
    requires t !in y.pc
    ensures var z := DirBegin(y, t, g, input, alive);
      var o := DirEnter(y.s, g, input, alive).1;
      && z.s == DirEnter(y.s, g, input, alive).0
      && (o.DirDone? ==> t !in z.pc)
      && (o.DirSet? ==> 0 <= g < |y.s.desc| && t in z.pc && z.pc[t] == InDirection(g, o.chip, input))
      && (o.DirRequest? ==> 0 <= g < |y.s.desc| && t in z.pc && z.pc[t] == InDirRequest(g, o.chip, input))
  {
  }

  /** A direction call without an automatic request to the chip. */
  lemma DirectionAlone(y: Sys, t: Thread, g: int, input: bool, alive: bool, rs: int, status: int)
    requires SysInv(y) && Enabled(y, DirStart(t, g, input, alive))
    requires !DirEnter(y.s, g, input, alive).1.DirRequest?
    ensures var z := DirBegin(y, t, g, input, alive);
      var d := Direction(y.s, g, input, alive, rs, status).0;
      && SysInv(z)
      && (t !in z.pc ==> z.s == d)
      && (t in z.pc ==> z.pc[t].InDirection? && DirFinish(z, t, status).s == d)
  {
    DirBeginKeeps(y, t, g, input, alive);
    DirectionStarts(y, t, g, input, alive);
  }

  /** And with one. */
  lemma AutorequestAlone(y: Sys, t: Thread, g: int, input: bool, alive: bool, rs: int, status: int)
    requires SysInv(y) && Enabled(y, DirStart(t, g, input, alive))
    requires DirEnter(y.s, g, input, alive).1.DirRequest?
    ensures var z := DirBegin(y, t, g, input, alive);
      && SysInv(z) && t in z.pc && z.pc[t].InDirRequest? && SysInv(DirRequestFinish(z, t, rs))
    ensures var w := DirRequestFinish(DirBegin(y, t, g, input, alive), t, rs);
      var d := Direction(y.s, g, input, alive, rs, status).0;
      && (t !in w.pc ==> w.s == d)
      && (t in w.pc ==> w.pc[t].InDirection? && DirFinish(w, t, status).s == d)
  {
    DirBeginKeeps(y, t, g, input, alive);
    DirectionStarts(y, t, g, input, alive);
    DirRequestFinishKeeps(DirBegin(y, t, g, input, alive), t, rs);
  }

  // ----- why the disciplines are needed -----

  /** If a stranger exports a line while its holder is freeing it, after gpio_unexport and before the
      lock, the line stays exported although nobody has requested it: its chip may go away while its
      value file is still there. */
  lemma StrangerExportOutlivesFree(y: Sys, t: Thread, u: Thread)
    requires SysInv(y) && Calm(y) && t in y.pc && y.pc[t].Unexported? && u !in y.pc
    ensures var moves := ExportWhileFreeing(y, t, u);
      && Schedule(y, moves)
      && y.pc[t].gpio < |After(y, moves).s.desc|
      && After(y, moves).s.desc[y.pc[t].gpio].flags.exported
      && !After(y, moves).s.desc[y.pc[t].gpio].flags.requested
      && !Inv(After(y, moves).s)
  {
    HeldLine(y, t);
    StrangerExports(y, t, u);
    var z := ExportedUnderHolder(y, t);
    DisorderKeepsSysInv(y, t);
    FreeDisordered(z, t);
    FirstMove(y, ExportBy(u, y.pc[t].gpio, true, 0), [FreeLock(t)] + FreeRest(z, t));
    ExportedUnrequested(After(y, ExportWhileFreeing(y, t, u)).s, y.pc[t].gpio);
  }

  function ExportWhileFreeing(y: Sys, t: Thread, u: Thread): seq<Move>
    requires SysInv(y) && t in y.pc
  {
    [ExportBy(u, y.pc[t].gpio, true, 0)] + ([FreeLock(t)] + FreeRest(y, t))
  }

  function ExportedUnderHolder(y: Sys, t: Thread): Sys
    requires t in y.pc && y.pc[t].gpio < |y.s.desc|
  {
    y.(s := SetFlags(y.s, y.pc[t].gpio, y.s.desc[y.pc[t].gpio].flags.(exported := true)))
  }

  lemma DisorderKeepsSysInv(y: Sys, t: Thread)
    requires SysInv(y) && t in y.pc && y.pc[t].gpio < |y.s.desc|
    ensures SysInv(ExportedUnderHolder(y, t))
    ensures FreeRest(ExportedUnderHolder(y, t), t) == FreeRest(y, t)
  {
    var z := ExportedUnderHolder(y, t);
    SysfsKeeps(y, z.s);
    assert z.s.desc[y.pc[t].gpio].chip == y.s.desc[y.pc[t].gpio].chip;
  }

  lemma ExportOfRequestedLine(s: State, g: nat)
    requires g < |s.desc| && s.desc[g].chip.Some? && s.desc[g].flags.requested && !s.desc[g].flags.exported
    ensures Export(s, g, true, 0) == (SetFlags(s, g, s.desc[g].flags.(exported := true)), Returned(0))
  {
  }

  lemma StrangerExports(y: Sys, t: Thread, u: Thread)
    requires SysInv(y) && t in y.pc && y.pc[t].gpio < |y.s.desc| && u !in y.pc
    requires var d := y.s.desc[y.pc[t].gpio];
      d.chip.Some? && d.flags.requested && !d.flags.exported
    ensures Next(y, ExportBy(u, y.pc[t].gpio, true, 0)) == ExportedUnderHolder(y, t)
  {
    ExportOfRequestedLine(y.s, y.pc[t].gpio);
  }

  /** The rest of gpio_free does not look at the export flag. */
  lemma FreeDisordered(y: Sys, t: Thread)
    requires SysInv(y) && t in y.pc && y.pc[t].Unexported?
    ensures var g := y.pc[t].gpio;
      var moves := [FreeLock(t)] + FreeRest(y, t);
      && Schedule(y, moves) && g < |y.s.desc| && y.s.desc[g].chip.Some?
      && After(y, moves).s == FreeLeave(y.s, g)
  {
    if FreeRest(y, t) == [] {
      FreeWithoutHook(y, t);
    } else {
      FreeWithHook(y, t);
    }
  }

  lemma FreeWithoutHook(y: Sys, t: Thread)
    requires SysInv(y) && t in y.pc && y.pc[t].Unexported? && FreeRest(y, t) == []
    ensures var g := y.pc[t].gpio;
      var moves := [FreeLock(t)] + FreeRest(y, t);
      && Schedule(y, moves) && g < |y.s.desc| && y.s.desc[g].chip.Some?
      && After(y, moves).s == FreeLeave(y.s, g)
  {
    FreeMiddleIs(y, t);
    NextKeepsSysInv(y, FreeLock(t));
    FirstMove(y, FreeLock(t), []);
  }

  lemma FreeWithHook(y: Sys, t: Thread)
    requires SysInv(y) && t in y.pc && y.pc[t].Unexported? && FreeRest(y, t) == [FreeEnd(t)]
    ensures var g := y.pc[t].gpio;
      var moves := [FreeLock(t)] + FreeRest(y, t);
      && Schedule(y, moves) && g < |y.s.desc| && y.s.desc[g].chip.Some?
      && After(y, moves).s == FreeLeave(y.s, g)
  {
    FreeMiddleIs(y, t);
    NextKeepsSysInv(y, FreeLock(t));
    var z := FreeMiddle(y, t);
    CallbackEnds(z, t);
    FirstMove(y, FreeLock(t), [FreeEnd(t)]);
  }

  lemma CallbackEnds(z: Sys, t: Thread)
    requires SysInv(z) && t in z.pc && z.pc[t].InFree?
    ensures var g := z.pc[t].gpio;
      && Schedule(z, [FreeEnd(t)]) && g < |z.s.desc| && z.s.desc[g].chip.Some?
      && After(z, [FreeEnd(t)]).s == FreeLeave(z.s, g)
  {
    HeldLine(z, t);
    NextKeepsSysInv(z, FreeEnd(t));
    FirstMove(z, FreeEnd(t), []);
    assert [FreeEnd(t)] + [] == [FreeEnd(t)];
  }

  /** The chip's free callback makes one more critical section. */
  function FreeRest(y: Sys, t: Thread): seq<Move>
    requires SysInv(y) && t in y.pc
  {
    assert ThreadOk(y, t);
    var d := y.s.desc[y.pc[t].gpio];
    if d.chip.Some? && d.chip.value.hasFree then [FreeEnd(t)] else []
  }

  lemma FirstMove(y: Sys, a: Move, rest: seq<Move>)
    requires SysInv(y) && Enabled(y, a) && SysInv(Next(y, a)) && Schedule(Next(y, a), rest)
    ensures Schedule(y, [a] + rest) && After(y, [a] + rest) == After(Next(y, a), rest)
  {
    assert ([a] + rest)[1..] == rest;
  }

  /** The discipline is needed: if a stranger frees the line while its chip is being called back, the
      chip can be removed under the callback exactly if no other line of it is requested. */
  lemma StrangerFreeLetsChipVanish(y: Sys, t: Thread)
    requires SysInv(y) && t in y.pc && Calling(y.pc[t])
    ensures var p := y.pc[t];
      var s' := Free(y.s, p.gpio);
      && OwnsBlock(s', p.chip)
      && (Remove(s', p.chip).1 == 0 <==>
            forall h | 0 <= h < |y.s.desc| && h != p.gpio && y.s.desc[h].chip == Some(p.chip) ::
              !y.s.desc[h].flags.requested)
  {
    HeldLine(y, t);
    assert ThreadOk(y, t);
    FreedChipGoesIff(y.s, y.pc[t].gpio, y.pc[t].chip);
  }

  lemma FreedChipGoesIff(s: State, g: nat, c: Chip)
    requires TableOk(s) && g < |s.desc| && s.desc[g].chip == Some(c) && s.desc[g].flags.requested
    ensures OwnsBlock(Free(s, g), c)
    ensures Remove(Free(s, g), c).1 == 0 <==>
      forall h | 0 <= h < |s.desc| && h != g && s.desc[h].chip == Some(c) :: !s.desc[h].flags.requested
  {
    assert OwnsBlock(s, c);
    FreedLine(s, g);
    var f := Free(s, g);
    RemovableIff(f, c);
    assert forall h | 0 <= h < |s.desc| && h != g :: f.desc[h] == s.desc[h];
  }

  lemma RemovableIff(s: State, c: Chip)
    requires TableOk(s) && OwnsBlock(s, c)
    ensures Remove(s, c).1 == 0 <==>
      forall h | 0 <= h < |s.desc| && s.desc[h].chip == Some(c) :: !s.desc[h].flags.requested
  {
    forall h | 0 <= h < |s.desc| && s.desc[h].chip == Some(c) ensures InBlock(s, c, h) {
      assert InBlock(s, s.desc[h].chip.value, h);
    }
  }

  lemma FreedLine(s: State, g: nat)
    requires g < |s.desc| && s.desc[g].chip.Some? && s.desc[g].flags.requested
    ensures var f := Free(s, g);
      && |f.desc| == |s.desc| && f.base == s.base
      && !f.desc[g].flags.requested && f.desc[g].chip == s.desc[g].chip
      && (TableOk(s) ==> TableOk(f))
      && forall h | 0 <= h < |s.desc| && h != g :: f.desc[h] == s.desc[h]
  {
    FreeTouchesOneLine(s, g);
    if TableOk(s) {
      SameChipsKeepTable(s, Free(s, g));
    }
  }
}
