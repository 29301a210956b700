/** What one call does to one line: requesting and freeing it, setting its direction, exporting it
    to sysfs and choosing the edges it reports. Functions are cut where the driver drops its
    spinlock around a chip callback, so that module GpioRaces can interleave them. */
module GpioLines {
  import opened Common
  import opened GpioTable

  // ----- edges -----

  /** The trigger bits: which logical edges of the value file userspace polls for. */
  datatype Edges = Edges(fall: bool, rise: bool)

  const NO_EDGES := Edges(false, false)

  function Trigger(f: Flags): Edges {
    Edges(f.fall, f.rise)
  }

  /** The physical edges that show the logical `e` on a line of the given polarity. */
  function Physical(irq: int, e: Edges, activeLow: bool): Action {
    if activeLow then Action(irq, e.rise, e.fall) else Action(irq, e.fall, e.rise)
  }

  /** gpio_to_irq for a line of the table. */
  function Irq(s: State, g: nat): int
    requires g < |s.desc|
  {
    var d := s.desc[g];
    if d.chip.None? || d.chip.value !in s.base then -ENXIO
    else
      var offset := g - s.base[d.chip.value];
      if 0 <= offset < |d.chip.value.irqs| then d.chip.value.irqs[offset] else -ENXIO
  }

  // ----- the invariant -----

  /** The module reference that a line accounts for. */
  function Held(d: Desc): multiset<Module> {
    if d.flags.requested && d.chip.Some? && d.chip.value.owner.Some?
    then multiset{d.chip.value.owner.value} else multiset{}
  }

  /** The references that the requested lines of a table account for. */
  function Owners(d: seq<Desc>): multiset<Module> {
    if d == [] then multiset{} else Owners(d[..|d| - 1]) + Held(d[|d| - 1])
  }

  /** One line: exported lines are requested, requested lines have a chip, and trigger bits, id,
      installed handler and value-file reference stand and fall together. */
  predicate LineOk(s: State, g: nat)
    requires g < |s.desc|
  {
    var d := s.desc[g];
    && (d.flags.requested ==> d.chip.Some?)
    && (d.flags.exported ==> d.flags.requested)
    && (if Trigger(d.flags) == NO_EDGES
        then d.flags.id == 0 && d.actions == [] && d.valueRefs == 0
        else && d.flags.exported
             && Irq(s, g) >= 0
             && d.flags.id != 0 && d.flags.id in s.idr && s.idr[d.flags.id] == g
             && d.actions == [Physical(Irq(s, g), Trigger(d.flags), d.flags.activeLow)]
             && d.valueRefs == 1)
  }

  /** Every id in use fits above ID_SHIFT of a 32-bit word and is the id of the line it names. */
  predicate IdsOk(s: State) {
    forall id | id in s.idr ::
      0 < id < 0x10000 && s.idr[id] < |s.desc| && s.desc[s.idr[id]].flags.id == id
  }

  predicate Inv(s: State) {
    && TableOk(s)
    && (forall g | 0 <= g < |s.desc| :: LineOk(s, g))
    && IdsOk(s)
    && s.refs == Owners(s.desc)
  }

  // ----- requesting and freeing -----

  /** What a call does when it gives up the spinlock: return, or run the chip's callback. */
  datatype Outcome = Done(status: int) | Callback(chip: Chip)

  function SetFlags(s: State, g: nat, f: Flags): State
    requires g < |s.desc|
  {
    s.(desc := s.desc[g := s.desc[g].(flags := f)])
  }

  function Get(refs: multiset<Module>, c: Chip): multiset<Module> {
    if c.owner.Some? then refs + multiset{c.owner.value} else refs
  }

  function Put(refs: multiset<Module>, c: Chip): multiset<Module> {
    if c.owner.Some? then refs - multiset{c.owner.value} else refs
  }

  /** try_module_get: only a chip that has an owner can be refused. */
  predicate CanGet(c: Chip, alive: bool) {
    c.owner.None? || alive
  }

  /** Mark line `g` requested and take the reference that goes with it. */
  function Claim(s: State, g: nat, c: Chip): State
    requires g < |s.desc|
  {
    SetFlags(s, g, s.desc[g].flags.(requested := true)).(refs := Get(s.refs, c))
  }

  function Unclaim(s: State, g: nat, c: Chip): State
    requires g < |s.desc|
  {
    SetFlags(s, g, s.desc[g].flags.(requested := false)).(refs := Put(s.refs, c))
  }

  /** gpio_request up to its callback. A duplicate puts back the reference it took. */
  function RequestEnter(s: State, g: int, alive: bool): (State, Outcome) {
    if !IsGpio(s, g) || s.desc[g].chip.None? then (s, Done(-EINVAL))
    else
      var c := s.desc[g].chip.value;
      if !CanGet(c, alive) then (s, Done(-EINVAL))
      else if s.desc[g].flags.requested then (s, Done(-EBUSY))
      else (Claim(s, g, c), if c.hasRequest then Callback(c) else Done(0))
  }

  /** gpio_request after its callback returned `status`. */
  function RequestLeave(s: State, g: nat, c: Chip, status: int): State
    requires g < |s.desc|
  {
    if status < 0 then Unclaim(s, g, c) else s
  }

  function Request(s: State, g: int, alive: bool, status: int): (State, int) {
    var (t, o) := RequestEnter(s, g, alive);
    match o
    case Done(e) => (t, e)
    case Callback(c) => (if IsGpio(t, g) then RequestLeave(t, g, c, status) else t, status)
  }

  /** gpio_free after gpio_unexport, up to its callback. */
  function FreeEnter(s: State, g: nat): (State, Outcome)
    requires g < |s.desc|
  {
    if s.desc[g].chip.Some? && s.desc[g].flags.requested then
      if s.desc[g].chip.value.hasFree then (s, Callback(s.desc[g].chip.value))
      else (FreeLeave(s, g), Done(0))
    else (s, Done(0))
  }

  /** gpio_free after its callback; the driver reads the chip from the table once more. */
  function FreeLeave(s: State, g: nat): State
    requires g < |s.desc| && s.desc[g].chip.Some?
  {
    SetFlags(s, g, s.desc[g].flags.(activeLow := false, requested := false))
      .(refs := Put(s.refs, s.desc[g].chip.value))
  }

  function Free(s: State, g: int): State {
    if !IsGpio(s, g) then s
    else
      var t := Unexport(s, g);
      if t.desc[g].chip.Some? && t.desc[g].flags.requested then FreeLeave(t, g) else t
  }

  // ----- direction -----

  predicate CanDirect(c: Chip, input: bool) {
    if input then c.hasGet && c.hasDirIn else c.hasSet && c.hasDirOut
  }

  /** The first callback of a direction call, or its early return. An automatic request has to
      run chip->request first. */
  datatype DirOutcome = DirDone(status: int) | DirRequest(chip: Chip) | DirSet(chip: Chip)

  /** gpio_direction_input and gpio_direction_output up to their first callback. */
  function DirEnter(s: State, g: int, input: bool, alive: bool): (State, DirOutcome) {
    if !IsGpio(s, g) || s.desc[g].chip.None? then (s, DirDone(-EINVAL))
    else
      var c := s.desc[g].chip.value;
      if !CanDirect(c, input) || !InBlock(s, c, g) then (s, DirDone(-EINVAL))
      else if s.desc[g].flags.requested then (s, DirSet(c))
      else if !CanGet(c, alive) then (s, DirDone(-EIO))
      else (Claim(s, g, c), if c.hasRequest then DirRequest(c) else DirSet(c))
  }

  function DirLeave(s: State, g: nat, input: bool, status: int): State
    requires g < |s.desc|
  {
    if status == 0 then SetFlags(s, g, s.desc[g].flags.(isOut := !input)) else s
  }

  /** A failing chip->request of an automatic request leaves the line requested. */
  function Direction(s: State, g: int, input: bool, alive: bool, requestStatus: int, status: int)
    : (State, int)
  {
    var (t, o) := DirEnter(s, g, input, alive);
    if o.DirDone? || !IsGpio(t, g) then (t, if o.DirDone? then o.status else 0)
    else if o.DirRequest? && requestStatus < 0 then (t, requestStatus)
    else (DirLeave(t, g, input, status), status)
  }

  // ----- interrupts -----

  /** What the kernel answers while a handler is set up: whether the value file is found, the id
      that the allocator gives (or its error), and the status of requesting the interrupt. */
  datatype IrqEnv = IrqEnv(fileFound: bool, id: Option<nat>, idError: int, irqStatus: int)

  /** The allocator answers with an id from 1 on that no other line is using, or an error. */
  predicate EnvOk(s: State, g: nat, env: IrqEnv) {
    && (env.id.Some? ==> env.id.value >= 1)
    && (env.id.Some? && env.id.value in s.idr ==> s.idr[env.id.value] == g)
    && env.idError < 0
  }

  /** The line reports no edges: no trigger bits, id, handler or reference is left. */
  function Quiet(s: State, g: nat): State
    requires g < |s.desc|
  {
    var d := s.desc[g];
    s.(desc := s.desc[g := d.(flags := d.flags.(fall := false, rise := false, id := 0),
                              actions := [], valueRefs := 0)],
       idr := s.idr - {d.flags.id})
  }

  /** The line reports edges `e` through a handler that carries id `id`. */
  function Armed(s: State, g: nat, e: Edges, id: nat): State
    requires g < |s.desc|
  {
    var d := s.desc[g];
    s.(desc := s.desc[g := d.(flags := d.flags.(fall := e.fall, rise := e.rise, id := id),
                              actions := [Physical(Irq(s, g), e, d.flags.activeLow)],
                              valueRefs := 1)],
       idr := s.idr[id := g])
  }

  /** gpio_setup_irq by its result: nothing changes, the line ends armed with exactly the wanted
      edges, or it ends quiet. A line that already reports edges keeps its id. */
  function SetupIrq(s: State, g: nat, want: Edges, env: IrqEnv): (State, int)
    requires g < |s.desc|
  {
    var now := Trigger(s.desc[g].flags);
    if now == want then (s, 0)
    else if Irq(s, g) < 0 then (s, -EIO)
    else if want == NO_EDGES then (Quiet(s, g), 0)
    else if now == NO_EDGES && !env.fileFound then (s, -ENODEV)
    else if now == NO_EDGES && env.id.None? then (s, env.idError)
    else if now == NO_EDGES && env.id.value >= 0x10000 then (s, -ERANGE)
    else if env.irqStatus < 0 then (Quiet(s, g), env.irqStatus)
    else (Armed(s, g, want, if now == NO_EDGES then env.id.value else s.desc[g].flags.id), 0)
  }

  /** The names that the edge file knows. */
  const TRIGGER_TYPES: seq<(string, Edges)> :=
    [("none", NO_EDGES), ("falling", Edges(true, false)), ("rising", Edges(false, true)), ("both", Edges(true, true))]

  /** sysfs_streq: equal up to a newline at the end of one of the two. */
  predicate SameWord(a: string, b: string) {
    a == b || a == b + "\n" || a + "\n" == b
  }

  function EdgesOf(name: string): Option<Edges> {
    if SameWord("none", name) then Some(NO_EDGES)
    else if SameWord("falling", name) then Some(Edges(true, false))
    else if SameWord("rising", name) then Some(Edges(false, true))
    else if SameWord("both", name) then Some(Edges(true, true))
    else None
  }

  /** gpio_edge_store, for the edges that the written name stands for, if it is known. */
  function EdgeStore(s: State, g: nat, want: Option<Edges>, env: IrqEnv): (State, int)
    requires g < |s.desc|
  {
    if want.None? then (s, -EINVAL)
    else if !s.desc[g].flags.exported then (s, -EIO)
    else SetupIrq(s, g, want.value, env)
  }

  /** sysfs_set_active_low: a line that reports exactly one edge is set up again. */
  function SetActiveLow(s: State, g: nat, low: bool, env: IrqEnv): (State, int)
    requires g < |s.desc|
  {
    var e := Trigger(s.desc[g].flags);
    if s.desc[g].flags.activeLow == low then (s, 0)
    else
      var t := SetFlags(s, g, s.desc[g].flags.(activeLow := low));
      if s.desc[g].flags.exported && e.fall != e.rise
      then SetupIrq(SetupIrq(t, g, NO_EDGES, env).0, g, e, env)
      else (t, 0)
  }

  // ----- sysfs export -----

  /** How gpio_export ends: with a status, or with a fault where it reads the chip of a line that
      has none. */
  datatype Answer = Returned(status: int) | Fault

  /** gpio_export; `deviceStatus` says how creating the line's device went. */
  function Export(s: State, g: int, ready: bool, deviceStatus: int): (State, Answer) {
    if !ready then (s, Returned(-ENOENT))
    else if !IsGpio(s, g) then (s, Returned(-EINVAL))
    else if s.desc[g].chip.None? then (s, Fault)
    else if !s.desc[g].flags.requested || s.desc[g].flags.exported then (s, Returned(-EINVAL))
    else if deviceStatus != 0 then (s, Returned(deviceStatus))
    else (SetFlags(s, g, s.desc[g].flags.(exported := true)), Returned(0))
  }

  function Unexport(s: State, g: int): (r: State)
    ensures |r.desc| == |s.desc|
    ensures IsGpio(s, g) ==>
      r.desc[g].chip == s.desc[g].chip && r.desc[g].flags.requested == s.desc[g].flags.requested
  {
    if !IsGpio(s, g) || !s.desc[g].flags.exported then s
    else
      var t := if Trigger(s.desc[g].flags) == NO_EDGES || Irq(s, g) < 0 then s else Quiet(s, g);
      SetFlags(t, g, t.desc[g].flags.(exported := false))
  }
}
