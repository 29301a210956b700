/** gpiolib itself: gpio_desc[] as an array updated in place, each method step by step as the driver
    does it, and each proved to end in the state that modules GpioTable, GpioLines and GpioArrays
    specify. Answers of chips, modules and the kernel are parameters. */
module GpioLib {
  import opened Common
  import opened GpioTable
  import opened GpioLines
  import opened GpioInvariant
  import opened GpioRuns
  import opened GpioArrays
  import GpioUser

  class Gpios {
    const desc: array<Desc>
    var base: map<Chip, int>
    var refs: multiset<Module>
    var idr: map<nat, nat>

    ghost function View(): State
      reads this, desc
    {
      State(desc[..], base, refs, idr)
    }

    constructor (n: nat)
      ensures View() == Boot(n) && fresh(desc)
    {
      desc := new Desc[n](_ => Desc(None, Flags(false, false, false, false, false, false, false, false, 0), [], 0));
      base, refs, idr := map[], multiset{}, map[];
      new;
      assert desc[..] == Boot(n).desc;
    }

    // ----- the table -----

    /** gpiochip_find_base: scan downwards, jumping over whole chips. */
    method FindBase(ngpio: nat) returns (r: int)
      requires TableOk(View())
      ensures r == if ngpio == 0 then -ENOSPC
                   else match HighestWindow(desc[..], ngpio, desc.Length)
                        case Some(b) => b
                        case None => -ENOSPC
    {
      var spare := 0;
      r := -ENOSPC;
      var i := desc.Length - 1;
      ghost var d := desc[..];
      while i >= 0
        invariant -1 <= i < desc.Length && d == desc[..]
        invariant 0 <= spare && i + 1 + spare <= desc.Length
        invariant ngpio > 0 ==> spare < ngpio
        invariant forall j | i < j <= i + spare :: IsFree(d[j])
        invariant i + 1 + spare < desc.Length ==> !IsFree(d[i + 1 + spare])
        invariant i + 1 < desc.Length && d[i + 1].chip.Some? ==> base[d[i + 1].chip.value] == i + 1
        invariant ngpio > 0 ==> forall a | i < a < desc.Length :: !WindowFree(d, a, ngpio)
        decreases i
      {
        assert d[i].chip.Some? ==> OwnsBlock(View(), d[i].chip.value) && InBlock(View(), d[i].chip.value, i);
        if desc[i].chip.None? && !desc[i].flags.reserved {
          spare := spare + 1;
          if spare == ngpio {
            HighestIs(d, ngpio, i, desc.Length);
            return i;
          }
          assert ngpio > 0 ==> !WindowFree(d, i, ngpio);
        } else {
          spare := 0;
          if desc[i].chip.Some? {
            var c := desc[i].chip.value;
            assert i == base[c] + c.ngpio - 1;
            i := i - (c.ngpio - 1);
            forall a | i <= a < i + c.ngpio && ngpio > 0 ensures !WindowFree(d, a, ngpio) {
              assert d[a].chip == Some(c);
            }
          }
        }
        i := i - 1;
      }
    }

    method Add(c: Chip) returns (status: int)
      requires TableOk(View()) && c in base
      modifies `base, desc
      ensures (View(), status) == GpioTable.Add(old(View()), c)
    {
      ghost var s := View();
      var b := base[c];
      if (b >= desc.Length || !(0 <= b + c.ngpio - 1 < desc.Length)) && b >= 0 {
        return -EINVAL;
      }
      if b < 0 {
        b := FindBase(c.ngpio);
        if b < 0 {
          return b;
        }
        assert WindowFree(s.desc, b, c.ngpio);
        base := base[c := b];
      }
      assert base == s.base[c := b];
      var id := b;
      while id < b + c.ngpio
        invariant b <= id <= b + c.ngpio
        invariant forall j | b <= j < id :: desc[j].chip.None?
      {
        if desc[id].chip.Some? {
          assert s.base[c] >= 0 && AnyChip(s.desc, b, c.ngpio);
          assert base == s.base;
          return -EBUSY;
        }
        id := id + 1;
      }
      assert !AnyChip(s.desc, b, c.ngpio);
      id := b;
      while id < b + c.ngpio
        modifies desc
        invariant b <= id <= b + c.ngpio
        invariant forall j | b <= j < id :: desc[j] == s.desc[j].(chip := Some(c), flags := FreshFlags(c))
        invariant forall j | 0 <= j < desc.Length && !(b <= j < id) :: desc[j] == s.desc[j]
      {
        desc[id] := desc[id].(chip := Some(c), flags := FreshFlags(c));
        id := id + 1;
      }
      status := 0;
      assert desc[..] == Install(s, c, b).desc;
      assert View() == Install(s, c, b);
    }

    method Remove(c: Chip) returns (status: int)
      requires TableOk(View()) && OwnsBlock(View(), c)
      modifies desc
      ensures (View(), status) == GpioTable.Remove(old(View()), c)
    {
      ghost var s := View();
      var b := base[c];
      var id := b;
      while id < b + c.ngpio
        invariant b <= id <= b + c.ngpio
        invariant forall j | b <= j < id :: !desc[j].flags.requested
      {
        if desc[id].flags.requested {
          assert AnyRequested(s, c);
          return -EBUSY;
        }
        id := id + 1;
      }
      id := b;
      while id < b + c.ngpio
        invariant b <= id <= b + c.ngpio
        invariant forall j | b <= j < id :: desc[j] == s.desc[j].(chip := None)
        invariant forall j | 0 <= j < desc.Length && !(b <= j < id) :: desc[j] == s.desc[j]
      {
        desc[id] := desc[id].(chip := None);
        id := id + 1;
      }
      status := 0;
      assert desc[..] == Uninstall(s, c).desc;
    }

    /** gpiochip_reserve: stops at the first busy number and keeps what it marked before. */
    method Reserve(start: int, ngpio: int) returns (ret: int)
      modifies desc
      ensures (View(), ret) == GpioTable.Reserve(old(View()), start, ngpio)
    {
      ghost var s := View();
      if !(0 <= start < desc.Length) || !(0 <= start + ngpio - 1 < desc.Length) {
        return -EINVAL;
      }
      var i := start;
      while i < start + ngpio
        invariant start <= i && (i <= start + ngpio || i == start)
        invariant ngpio > 0 ==> i <= FirstBusy(s.desc, start, start + ngpio)
        invariant forall j | start <= j < i ::
                    desc[j] == s.desc[j].(flags := s.desc[j].flags.(reserved := true))
        invariant forall j | 0 <= j < desc.Length && !(start <= j < i) :: desc[j] == s.desc[j]
      {
        if desc[i].chip.Some? || desc[i].flags.reserved {
          assert desc[..] == MarkReserved(s, start, i).desc;
          return -EBUSY;
        }
        desc[i] := desc[i].(flags := desc[i].flags.(reserved := true));
        i := i + 1;
      }
      assert ngpio > 0 ==> desc[..] == MarkReserved(s, start, i).desc;
      assert ngpio <= 0 ==> desc[..] == s.desc;
      ret := 0;
    }

    // ----- lines -----

    method SetDescFlags(g: nat, f: Flags)
      requires g < desc.Length
      modifies desc
      ensures desc[..] == old(desc[..])[g := old(desc[g]).(flags := f)]
    {
      desc[g] := desc[g].(flags := f);
    }

    /** try_module_get on a chip's owner. */
    method ModuleGet(c: Chip, alive: bool) returns (ok: bool)
      modifies `refs
      ensures ok == CanGet(c, alive)
      ensures refs == if ok then Get(old(refs), c) else old(refs)
    {
      if c.owner.None? {
        return true;
      }
      if alive {
        refs := refs + multiset{c.owner.value};
      }
      return alive;
    }

    method ModulePut(c: Chip)
      modifies `refs
      ensures refs == Put(old(refs), c)
    {
      if c.owner.Some? {
        refs := refs - multiset{c.owner.value};
      }
    }

    method Request(g: int, alive: bool, callbackStatus: int) returns (status: int)
      modifies `refs, desc
      ensures (View(), status) == GpioLines.Request(old(View()), g, alive, callbackStatus)
    {
      ghost var s := View();
      if !(0 <= g < desc.Length) || desc[g].chip.None? {
        return -EINVAL;
      }
      var c := desc[g].chip.value;
      var ok := ModuleGet(c, alive);
      if !ok {
        return -EINVAL;
      }
      var was := TestAndSetRequested(g);
      if was {
        ModulePut(c);
        PutGet(s.refs, c);
        assert View() == s;
        return -EBUSY;
      }
      assert View() == Claim(s, g, c);
      FirstRequest(s, g, c, alive, callbackStatus);
      status := 0;
      if c.hasRequest {
        status := callbackStatus;
        if status < 0 {
          ModulePut(c);
          SetDescFlags(g, desc[g].flags.(requested := false));
          assert View() == Unclaim(Claim(s, g, c), g, c);
        }
      }
    }

    /** test_and_set_bit on FLAG_REQUESTED. */
    method TestAndSetRequested(g: nat) returns (was: bool)
      requires g < desc.Length
      modifies desc
      ensures was == old(desc[g]).flags.requested
      ensures desc[..] == if was then old(desc[..])
                          else old(desc[..])[g := old(desc[g]).(flags := old(desc[g]).flags.(requested := true))]
    {
      was := desc[g].flags.requested;
      desc[g] := desc[g].(flags := desc[g].flags.(requested := true));
    }

    method Free(g: int)
      requires Inv(View())
      modifies this, desc
      ensures View() == GpioLines.Free(old(View()), g)
      ensures Inv(View())
    {
      ghost var s := View();
      if 0 <= g < desc.Length {
        Unexport(g);
        if desc[g].chip.Some? && desc[g].flags.requested {
          Release(g);
        }
      }
      FreeKeepsInv(s, g);
    }

    /** The locked end of gpio_free, after the chip's callback. */
    method Release(g: nat)
      requires g < desc.Length && desc[g].chip.Some?
      modifies `refs, desc
      ensures View() == FreeLeave(old(View()), g)
    {
      ghost var s := View();
      ModulePut(desc[g].chip.value);
      SetDescFlags(g, desc[g].flags.(activeLow := false));
      SetDescFlags(g, desc[g].flags.(requested := false));
      assert desc[..] == FreeLeave(s, g).desc;
    }

    /** gpio_ensure_requested: 1 asks the caller to run chip->request. */
    method EnsureRequested(g: nat, c: Chip, alive: bool) returns (status: int)
      requires g < desc.Length && desc[g].chip == Some(c)
      modifies `refs, desc
      ensures var s := old(View());
        if s.desc[g].flags.requested then status == 0 && View() == s
        else if !CanGet(c, alive) then status == -EIO && View() == s
        else status == (if c.hasRequest then 1 else 0) && View() == Claim(s, g, c)
    {
      ghost var s := View();
      var was := TestAndSetRequested(g);
      if !was {
        var ok := ModuleGet(c, alive);
        if !ok {
          SetDescFlags(g, desc[g].flags.(requested := false));
          assert desc[..] == s.desc;
          return -EIO;
        }
        if c.hasRequest {
          return 1;
        }
      }
      return 0;
    }

    /** gpio_direction_input and gpio_direction_output. */
    method Direction(g: int, input: bool, alive: bool, requestStatus: int, dirStatus: int)
      returns (status: int)
      requires TableOk(View())
      modifies `refs, desc
      ensures (View(), status) ==
              GpioLines.Direction(old(View()), g, input, alive, requestStatus, dirStatus)
    {
      ghost var s := View();
      if !(0 <= g < desc.Length) || desc[g].chip.None? {
        return -EINVAL;
      }
      var c := desc[g].chip.value;
      assert s.desc[g].chip.Some?;
      assert OwnsBlock(s, c) && InBlock(s, c, g);
      if (input && (!c.hasGet || !c.hasDirIn)) || (!input && (!c.hasSet || !c.hasDirOut)) {
        return -EINVAL;
      }
      if g - base[c] >= c.ngpio {
        return -EINVAL;
      }
      status := EnsureRequested(g, c, alive);
      if status < 0 {
        return;
      }
      if status != 0 {
        status := requestStatus;
        if status < 0 {
          return;
        }
      }
      status := dirStatus;
      if status == 0 {
        SetDescFlags(g, desc[g].flags.(isOut := !input));
      }
    }

    method RequestOne(p: Pin, e: PinEnv) returns (err: int)
      requires Inv(View())
      modifies this, desc
      ensures (View(), err) == GpioArrays.RequestOne(old(View()), p, e)
      ensures Inv(View())
    {
      RequestOneKeepsInv(View(), p, e);
      RequestKeepsInv(View(), p.gpio, e.alive, e.requestStatus);
      err := Request(p.gpio, e.alive, e.requestStatus);
      if err != 0 {
        return;
      }
      DirectionKeepsInv(View(), p.gpio, p.input, e.alive, 0, e.dirStatus);
      err := Direction(p.gpio, p.input, e.alive, 0, e.dirStatus);
      if err != 0 {
        Free(p.gpio);
      }
    }

    /** gpio_request_array. */
    method RequestArray(ps: seq<Pin>, es: seq<PinEnv>) returns (err: int)
      requires Inv(View()) && |ps| == |es|
      modifies this, desc
      ensures (View(), err) == GpioArrays.RequestArray(old(View()), ps, es)
      ensures Inv(View())
    {
      ghost var s := View();
      var i := 0;
      WholePlan(s, ps, es);
      while i < |ps|
        invariant 0 <= i <= |ps| && Inv(View())
        invariant GpioArrays.RequestArray(s, ps, es) == Plan(View(), ps, es, i)
      {
        PlanStep(View(), ps, es, i);
        err := RequestOne(ps[i], es[i]);
        if err != 0 {
          Rollback(ps, i, err);
          return;
        }
        i := i + 1;
      }
      EndOfPlan(View(), ps, es);
      err := 0;
    }

    /** Its rollback loop: free the first `n` entries, last one first. */
    method Rollback(ps: seq<Pin>, n: nat, err: int)
      requires Inv(View()) && n <= |ps| && err != 0
      modifies this, desc
      ensures (View(), err) == Unwind((old(View()), err), ps, n)
      ensures Inv(View())
    {
      ghost var s := View();
      var i := n;
      while i > 0
        invariant 0 <= i <= n && Inv(View())
        invariant Unwind((s, err), ps, n) == Unwind((View(), err), ps, i)
      {
        i := i - 1;
        Free(ps[i].gpio);
      }
    }

    method FreeArray(ps: seq<Pin>)
      requires Inv(View())
      modifies this, desc
      ensures View() == GpioArrays.FreeArray(old(View()), ps) && Inv(View())
    {
      var i := 0;
      ghost var s := View();
      while i < |ps|
        invariant 0 <= i <= |ps| && Inv(View())
        invariant GpioArrays.FreeArray(s, ps) == GpioArrays.FreeArray(View(), ps[i..])
      {
        assert ps[i..][0] == ps[i] && ps[i..][1..] == ps[i + 1..];
        Free(ps[i].gpio);
        i := i + 1;
      }
    }

    // ----- sysfs -----

    /** gpio_to_irq, by the line's chip. */
    method ToIrq(g: nat) returns (irq: int)
      requires TableOk(View()) && g < desc.Length && desc[g].chip.Some?
      ensures irq == Irq(View(), g)
    {
      var c := desc[g].chip.value;
      assert OwnsBlock(View(), View().desc[g].chip.value) && InBlock(View(), c, g);
      if |c.irqs| == 0 {
        return -ENXIO;
      }
      var offset := g - base[c];
      irq := if offset < |c.irqs| then c.irqs[offset] else -ENXIO;
    }

    /** free_irq(irq, cookie): the handler of line `g` on `irq` goes away. */
    method FreeIrq(g: nat, irq: int)
      requires g < desc.Length
      modifies desc
      ensures desc[..] == old(desc[..])[g := old(desc[g]).(actions := Without(old(desc[g]).actions, irq))]
    {
      desc[g] := desc[g].(actions := Without(desc[g].actions, irq));
    }

    /** idr_remove, and dropping the reference on the value file: labels free_id and free_sd. */
    method FreeId(g: nat, id: nat)
      requires g < desc.Length && desc[g].valueRefs > 0
      modifies `idr, desc
      ensures idr == old(idr) - {id}
      ensures desc[..] == old(desc[..])[g := old(desc[g]).(flags := old(desc[g]).flags.(id := 0),
                                                          valueRefs := old(desc[g]).valueRefs - 1)]
    {
      idr := idr - {id};
      desc[g] := desc[g].(flags := desc[g].flags.(id := 0));
      desc[g] := desc[g].(valueRefs := desc[g].valueRefs - 1);
    }

    /** Finding the value file and giving it an id; every failure undoes what came before it. */
    method NewId(g: nat, env: IrqEnv) returns (ret: int, id: nat)
      requires g < desc.Length && desc[g].flags.id == 0 && desc[g].valueRefs == 0 && env.idError < 0
      requires env.id.Some? ==> env.id.value !in idr
      modifies `idr, desc
      ensures ret == if !env.fileFound then -ENODEV else if env.id.None? then env.idError
                     else if env.id.value >= 0x10000 then -ERANGE else 0
      ensures if ret != 0 then idr == old(idr) && desc[..] == old(desc[..])
              else && id == env.id.value && idr == old(idr)[id := g]
                   && desc[..] == old(desc[..])[g := old(desc[g]).(flags := old(desc[g]).flags.(id := id),
                                                                   valueRefs := 1)]
    {
      ghost var d, ids := desc[..], idr;
      id := 0;
      if !env.fileFound {
        return -ENODEV, id;
      }
      desc[g] := desc[g].(valueRefs := desc[g].valueRefs + 1);
      if env.id.None? {
        desc[g] := desc[g].(valueRefs := desc[g].valueRefs - 1);
        assert desc[..] == d;
        return env.idError, id;
      }
      id := env.id.value;
      idr := idr[id := g];
      SetDescFlags(g, desc[g].flags.(id := id % 0x10000));
      if desc[g].flags.id != id {
        FreeId(g, id);
        assert desc[..] == d && idr == ids;
        return -ERANGE, id;
      }
      ret := 0;
    }

    /** request_irq with the line's value file as cookie, then the trigger bits; on failure the id
        and the reference go. */
    method InstallHandler(g: nat, irq: int, id: nat, want: Edges, irqStatus: int) returns (ret: int)
      requires g < desc.Length && desc[g].valueRefs == 1 && desc[g].actions == []
      requires Trigger(desc[g].flags) == NO_EDGES && desc[g].flags.id == id
      requires irq == Irq(View(), g) && id in idr && idr[id] == g
      modifies `idr, desc
      ensures View() == if irqStatus < 0 then Quiet(old(View()), g) else Armed(old(View()), g, want, id)
      ensures ret == if irqStatus < 0 then irqStatus else 0
    {
      ghost var s := View();
      if irqStatus < 0 {
        FreeId(g, id);
        assert desc[..] == Quiet(s, g).desc;
        return irqStatus;
      }
      var low := desc[g].flags.activeLow;
      var falling, rising := false, false;
      if want.fall {
        falling, rising := !low, low;
      }
      if want.rise {
        falling, rising := falling || low, rising || !low;
      }
      assert Action(irq, falling, rising) == Physical(irq, want, low);
      desc[g] := desc[g].(actions := desc[g].actions + [Action(irq, falling, rising)]);
      desc[g] := desc[g].(flags := desc[g].flags.(fall := want.fall, rise := want.rise));
      assert desc[g].actions == [Physical(irq, want, low)];
      assert desc[..] == Armed(s, g, want, id).desc;
      ret := 0;
    }

    /** gpio_setup_irq. */
    method SetupIrq(g: nat, want: Edges, env: IrqEnv) returns (ret: int)
      requires g < desc.Length && SetupReady(View(), g) && EnvOk(View(), g, env)
      modifies `idr, desc
      ensures (View(), ret) == GpioLines.SetupIrq(old(View()), g, want, env)
    {
      ghost var s := View();
      if Trigger(desc[g].flags) == want {
        return 0;
      }
      var irq := ToIrq(g);
      if irq < 0 {
        return -EIO;
      }
      var id := desc[g].flags.id;
      var valueSd := id in idr;
      if valueSd {
        OnlyHandler(desc[g].actions, irq);
        FreeIrq(g, irq);
      }
      SetDescFlags(g, desc[g].flags.(fall := false, rise := false));
      assert valueSd == (Trigger(s.desc[g].flags) != NO_EDGES);
      assert desc[..] ==
        s.desc[g := s.desc[g].(flags := s.desc[g].flags.(fall := false, rise := false), actions := [])];
      if want == NO_EDGES {
        FreeId(g, id);
        assert desc[..] == Quiet(s, g).desc;
        return 0;
      }
      if !valueSd {
        assert desc[..] == s.desc;
        ret, id := NewId(g, env);
        if ret != 0 {
          return;
        }
      }
      assert View() == Prepared(s, g, id);
      PreparedLine(s, g, id, want, env);
      ret := InstallHandler(g, irq, id, want, env.irqStatus);
    }

    /** The search of gpio_edge_store for the name written. */
    static method FindEdges(name: string) returns (want: Option<Edges>)
      ensures want == EdgesOf(name)
    {
      assert TRIGGER_TYPES[0] == ("none", NO_EDGES) && TRIGGER_TYPES[1] == ("falling", Edges(true, false));
      assert TRIGGER_TYPES[2] == ("rising", Edges(false, true)) && TRIGGER_TYPES[3] == ("both", Edges(true, true));
      var i := 0;
      while i < |TRIGGER_TYPES|
        invariant 0 <= i <= |TRIGGER_TYPES|
        invariant forall j | 0 <= j < i :: !SameWord(TRIGGER_TYPES[j].0, name)
      {
        if SameWord(TRIGGER_TYPES[i].0, name) {
          return Some(TRIGGER_TYPES[i].1);
        }
        i := i + 1;
      }
      want := None;
    }

    method EdgeStore(g: nat, name: string, env: IrqEnv) returns (status: int)
      requires Inv(View()) && g < desc.Length && EnvOk(View(), g, env)
      modifies `idr, desc
      ensures (View(), status) == GpioLines.EdgeStore(old(View()), g, EdgesOf(name), env)
    {
      var want := FindEdges(name);
      if want.None? {
        return -EINVAL;
      }
      if !desc[g].flags.exported {
        return -EIO;
      }
      InvIsReady(View(), g);
      status := SetupIrq(g, want.value, env);
    }

    method Export(g: int, ready: bool, deviceStatus: int) returns (a: Answer)
      modifies desc
      ensures (View(), a) == GpioLines.Export(old(View()), g, ready, deviceStatus)
    {
      if !ready {
        return Returned(-ENOENT);
      }
      if !(0 <= g < desc.Length) {
        return Returned(-EINVAL);
      }
      var status := -EINVAL;
      if desc[g].chip.None? {
        return Fault;
      }
      if desc[g].flags.requested && !desc[g].flags.exported {
        status := 0;
      }
      if status == 0 {
        status := deviceStatus;
        if status == 0 {
          SetDescFlags(g, desc[g].flags.(exported := true));
        }
      }
      a := Returned(status);
    }

    method Unexport(g: int)
      requires Inv(View())
      modifies `idr, desc
      ensures View() == GpioLines.Unexport(old(View()), g)
      ensures Inv(View())
    {
      if !(0 <= g < desc.Length) {
        return;
      }
      ghost var s := View();
      UnexportKeepsInv(s, g);
      if desc[g].flags.exported {
        InvIsReady(s, g);
        var _ := SetupIrq(g, NO_EDGES, IrqEnv(false, None, -1, 0));
        SetDescFlags(g, desc[g].flags.(exported := false));
      }
    }

    /** sysfs_set_active_low; the device exists exactly while the line is exported. */
    method SetActiveLow(g: nat, low: bool, env: IrqEnv) returns (status: int)
      requires Inv(View()) && g < desc.Length && EnvOk(View(), g, env)
      modifies `idr, desc
      ensures (View(), status) == GpioLines.SetActiveLow(old(View()), g, low, env)
      ensures Inv(View())
    {
      ghost var s := View();
      assert Inv(GpioLines.SetActiveLow(s, g, low, env).0) by {
        SetActiveLowKeepsInv(s, g, low, env);
      }
      if desc[g].flags.activeLow == low {
        return 0;
      }
      status := 0;
      SetDescFlags(g, desc[g].flags.(activeLow := low));
      if desc[g].flags.exported && desc[g].flags.rise != desc[g].flags.fall {
        var e := Trigger(desc[g].flags);
        FlipIsReady(s, g, low, env);
        var _ := SetupIrq(g, NO_EDGES, env);
        assert View() == FlippedQuiet(s, g, low);
        status := SetupIrq(g, e, env);
      }
    }

    /** export_store and unexport_store, after parsing their number. */
    method ExportStore(g: int, alive: bool, callbackStatus: int, ready: bool, deviceStatus: int)
      returns (status: int)
      requires Inv(View())
      modifies this, desc
      ensures (View(), status) ==
              GpioUser.ExportStore(old(View()), g, alive, callbackStatus, ready, deviceStatus)
      ensures Inv(View())
    {
      RequestKeepsInv(View(), g, alive, callbackStatus);
      status := Request(g, alive, callbackStatus);
      if status < 0 || !(0 <= g < desc.Length) {
        return;
      }
      status := ExportOrFree(g, ready, deviceStatus);
    }

    /** The rest of export_store, for a line that was just requested. */
    method ExportOrFree(g: nat, ready: bool, deviceStatus: int) returns (status: int)
      requires Inv(View()) && g < desc.Length && desc[g].chip.Some?
      modifies this, desc
      ensures (View(), status) == GpioUser.ExportOrFree(old(View()), g, ready, deviceStatus)
      ensures Inv(View())
    {
      GpioUser.ExportOrFreeKeepsInv(View(), g, ready, deviceStatus);
      ExportKeepsInv(View(), g, ready, deviceStatus);
      var a := Export(g, ready, deviceStatus);
      status := a.status;
      if status < 0 {
        Free(g);
      } else {
        SetDescFlags(g, desc[g].flags.(sysfs := true));
      }
    }

    method UnexportStore(g: int) returns (status: int)
      requires Inv(View())
      modifies this, desc
      ensures (View(), status) == GpioUser.UnexportStore(old(View()), g)
      ensures Inv(View())
    {
      if !(0 <= g < desc.Length) || !desc[g].flags.sysfs {
        return -EINVAL;
      }
      GpioUser.MarkKeepsInv(View(), g, false);
      SetDescFlags(g, desc[g].flags.(sysfs := false));
      Free(g);
      status := 0;
    }
  }

  /** The line between two handlers: no trigger bits, no handler, but an id and a reference. */
  ghost function Prepared(s: State, g: nat, id: nat): State
    requires g < |s.desc|
  {
    var d := s.desc[g];
    s.(desc := s.desc[g := d.(flags := d.flags.(fall := false, rise := false, id := id),
                              actions := [], valueRefs := 1)],
       idr := s.idr[id := g])
  }

  lemma PreparedLine(s: State, g: nat, id: nat, want: Edges, env: IrqEnv)
    requires g < |s.desc| && SetupReady(s, g) && EnvOk(s, g, env) && Irq(s, g) >= 0
    requires want != NO_EDGES && want != Trigger(s.desc[g].flags)
    requires if Trigger(s.desc[g].flags) == NO_EDGES
             then env.fileFound && env.id == Some(id) && id < 0x10000 else id == s.desc[g].flags.id
    ensures Irq(Prepared(s, g, id), g) == Irq(s, g)
    ensures GpioLines.SetupIrq(s, g, want, env) ==
      if env.irqStatus < 0 then (Quiet(Prepared(s, g, id), g), env.irqStatus)
      else (Armed(Prepared(s, g, id), g, want, id), 0)
  {
    var t := Prepared(s, g, id);
    assert Quiet(t, g).desc == Quiet(s, g).desc;
    assert Quiet(t, g).idr == Quiet(s, g).idr;
    assert Armed(t, g, want, id).desc == Armed(s, g, want, id).desc;
    assert Armed(t, g, want, id).idr == Armed(s, g, want, id).idr;
  }

  lemma OnlyHandler(actions: seq<Action>, irq: int)
    requires |actions| == 1 && actions[0].irq == irq
    ensures Without(actions, irq) == []
  {
  }

  lemma PutGet(refs: multiset<Module>, c: Chip)
    ensures Put(Get(refs, c), c) == refs
  {
  }

  /** The first handler on `irq` is removed. */
  function Without(actions: seq<Action>, irq: int): seq<Action> {
    if actions == [] then []
    else if actions[0].irq == irq then actions[1..]
    else [actions[0]] + Without(actions[1..], irq)
  }

  /** What is left to do after the first `i` entries were taken: nothing on success, freeing them
      from the last to the first on failure. */
  function Unwind(r: (State, int), ps: seq<Pin>, i: nat): (State, int)
    requires i <= |ps|
    decreases i
  {
    if r.1 == 0 || i == 0 then r
    else Unwind((GpioLines.Free(r.0, ps[i - 1].gpio), r.1), ps, i - 1)
  }

  lemma UnwindSuccess(s: State, ps: seq<Pin>, i: nat)
    requires i <= |ps|
    ensures Unwind((s, 0), ps, i) == (s, 0)
  {
  }

  /** What a call will end with when it has taken the first `i` entries and is in state `v`. */
  function Plan(v: State, ps: seq<Pin>, es: seq<PinEnv>, i: nat): (State, int)
    requires |ps| == |es| && i <= |ps|
  {
    Unwind(GpioArrays.RequestArray(v, ps[i..], es[i..]), ps, i)
  }

  lemma WholePlan(v: State, ps: seq<Pin>, es: seq<PinEnv>)
    requires |ps| == |es|
    ensures Plan(v, ps, es, 0) == GpioArrays.RequestArray(v, ps, es)
  {
    assert ps[0..] == ps && es[0..] == es;
  }

  lemma EndOfPlan(v: State, ps: seq<Pin>, es: seq<PinEnv>)
    requires |ps| == |es|
    ensures Plan(v, ps, es, |ps|) == (v, 0)
  {
    UnwindSuccess(v, ps, |ps|);
  }

  lemma PlanStep(v: State, ps: seq<Pin>, es: seq<PinEnv>, i: nat)
    requires |ps| == |es| && i < |ps|
    ensures var (t, e) := GpioArrays.RequestOne(v, ps[i], es[i]);
      Plan(v, ps, es, i) == if e != 0 then Unwind((t, e), ps, i) else Plan(t, ps, es, i + 1)
  {
    assert ps[i..][0] == ps[i] && ps[i..][1..] == ps[i + 1..];
    assert es[i..][0] == es[i] && es[i..][1..] == es[i + 1..];
    var (t, e) := GpioArrays.RequestOne(v, ps[i], es[i]);
    if e == 0 {
      var (u, e') := GpioArrays.RequestArray(t, ps[i + 1..], es[i + 1..]);
      if e' == 0 {
        UnwindSuccess(u, ps, i);
        UnwindSuccess(u, ps, i + 1);
      }
    }
  }
}
