/** Every call of gpiolib keeps the invariant of module GpioLines: for any sequence of calls, with
    any outcome of the callbacks, no id, handler or module reference leaks. */
module GpioInvariant {
  import opened Common
  import opened GpioTable
  import opened GpioLines

  // ----- counting module references -----

  lemma {:induction false} OwnersUpdate(d: seq<Desc>, g: nat, x: Desc)
    requires g < |d|
    ensures Owners(d[g := x]) + Held(d[g]) == Owners(d) + Held(x)
  {
    var n := |d| - 1;
    var e := d[g := x];
    OwnersOfLast(d);
    OwnersOfLast(e);
    if g == n {
      assert e[..n] == d[..n];
      AddBoth(Owners(d[..n]), Held(x), Held(d[n]));
    } else {
      assert e[..n] == d[..n][g := x];
      OwnersUpdate(d[..n], g, x);
      AddThird(Owners(e[..n]), Held(d[g]), Owners(d[..n]), Held(x), Held(d[n]));
    }
  }

  lemma OwnersOfLast(d: seq<Desc>)
    requires d != []
    ensures Owners(d) == Owners(d[..|d| - 1]) + Held(d[|d| - 1])
  {
  }

  lemma AddBoth(a: multiset<Module>, x: multiset<Module>, y: multiset<Module>)
    ensures (a + x) + y == (a + y) + x
  {
  }

  lemma AddThird(a: multiset<Module>, h: multiset<Module>, b: multiset<Module>,
                 x: multiset<Module>, k: multiset<Module>)
    requires a + h == b + x
    ensures (a + k) + h == (b + k) + x
  {
    AddBoth(a, k, h);
    AddBoth(b, k, x);
  }

  lemma Cancel(a: multiset<Module>, b: multiset<Module>, h: multiset<Module>)
    requires a + h == b + h
    ensures a == b
  {
    forall m: Module ensures a[m] == b[m] {
      assert (a + h)[m] == (b + h)[m];
    }
  }

  lemma {:induction false} OwnersPointwise(d: seq<Desc>, e: seq<Desc>)
    requires |d| == |e| && forall i | 0 <= i < |d| :: Held(d[i]) == Held(e[i])
    ensures Owners(d) == Owners(e)
  {
    if d != [] {
      OwnersPointwise(d[..|d| - 1], e[..|e| - 1]);
    }
  }

  /** A requested line of a chip with an owner holds one of the references counted. */
  lemma {:induction false} OwnersContains(d: seq<Desc>, g: nat)
    requires g < |d|
    ensures Held(d[g]) <= Owners(d)
  {
    var n := |d| - 1;
    if g < n {
      OwnersContains(d[..n], g);
    }
  }

  // ----- steps that touch one line -----

  /** `t` differs from `s` at most in line `g`, in the ids that name it and in the references. */
  predicate OnlyLine(s: State, t: State, g: nat) {
    && |t.desc| == |s.desc| && t.base == s.base && g < |s.desc|
    && t.desc[g].chip == s.desc[g].chip
    && (forall h | 0 <= h < |s.desc| && h != g :: t.desc[h] == s.desc[h])
    && (forall id | id in s.idr && s.idr[id] != g :: id in t.idr && t.idr[id] == s.idr[id])
    && (forall id | id in t.idr && t.idr[id] != g :: id in s.idr && t.idr[id] == s.idr[id])
  }

  lemma KeepOtherLine(s: State, t: State, g: nat, h: nat)
    requires OnlyLine(s, t, g) && h < |s.desc| && h != g && LineOk(s, h)
    ensures LineOk(t, h)
  {
  }

  lemma KeepIds(s: State, t: State, g: nat)
    requires IdsOk(s) && OnlyLine(s, t, g)
    requires forall id | id in t.idr && t.idr[id] == g :: 0 < id < 0x10000 && id == t.desc[g].flags.id
    ensures IdsOk(t)
  {
  }

  lemma KeepReferences(s: State, t: State, g: nat)
    requires s.refs == Owners(s.desc) && OnlyLine(s, t, g)
    requires t.refs + Held(s.desc[g]) == s.refs + Held(t.desc[g])
    ensures t.refs == Owners(t.desc)
  {
    assert t.desc == s.desc[g := t.desc[g]];
    OwnersUpdate(s.desc, g, t.desc[g]);
    Cancel(t.refs, Owners(t.desc), Held(s.desc[g]));
  }

  lemma KeepInv(s: State, t: State, g: nat)
    requires Inv(s) && OnlyLine(s, t, g)
    requires LineOk(t, g)
    requires forall id | id in t.idr && t.idr[id] == g :: 0 < id < 0x10000 && id == t.desc[g].flags.id
    requires t.refs + Held(s.desc[g]) == s.refs + Held(t.desc[g])
    ensures Inv(t)
  {
    assert TableOk(t) by {
      SameChipsKeepTable(s, t);
    }
    assert IdsOk(t) by {
      KeepIds(s, t, g);
    }
    assert t.refs == Owners(t.desc) by {
      KeepReferences(s, t, g);
    }
    forall h | 0 <= h < |t.desc| ensures LineOk(t, h) {
      if h != g {
        KeepOtherLine(s, t, g, h);
      }
    }
  }

  lemma ClaimKeepsInv(s: State, g: nat, c: Chip)
    requires Inv(s) && g < |s.desc| && s.desc[g].chip == Some(c) && !s.desc[g].flags.requested
    ensures Inv(Claim(s, g, c))
  {
    assert LineOk(s, g);
    KeepInv(s, Claim(s, g, c), g);
  }

  lemma UnclaimKeepsInv(s: State, g: nat, c: Chip)
    requires Inv(s) && g < |s.desc| && s.desc[g].chip == Some(c)
    requires s.desc[g].flags.requested && !s.desc[g].flags.exported
    ensures Inv(Unclaim(s, g, c))
  {
    assert LineOk(s, g);
    OwnersContains(s.desc, g);
    KeepInv(s, Unclaim(s, g, c), g);
  }

  lemma FreeLeaveKeepsInv(s: State, g: nat)
    requires Inv(s) && g < |s.desc| && s.desc[g].chip.Some?
    requires s.desc[g].flags.requested && !s.desc[g].flags.exported
    ensures Inv(FreeLeave(s, g))
  {
    assert LineOk(s, g);
    OwnersContains(s.desc, g);
    KeepInv(s, FreeLeave(s, g), g);
  }

  lemma DirLeaveKeepsInv(s: State, g: nat, input: bool, status: int)
    requires Inv(s) && g < |s.desc|
    ensures Inv(DirLeave(s, g, input, status))
  {
    if status == 0 {
      assert LineOk(s, g);
      KeepInv(s, DirLeave(s, g, input, status), g);
    }
  }

  lemma QuietKeepsInv(s: State, g: nat)
    requires Inv(s) && g < |s.desc|
    ensures Inv(Quiet(s, g))
  {
    assert LineOk(s, g);
    assert 0 !in s.idr;
    KeepInv(s, Quiet(s, g), g);
  }

  lemma ArmedKeepsInv(s: State, g: nat, e: Edges, id: nat)
    requires Inv(s) && g < |s.desc| && s.desc[g].flags.exported && Irq(s, g) >= 0
    requires e != NO_EDGES && 0 < id < 0x10000
    requires id in s.idr ==> s.idr[id] == g
    requires s.desc[g].flags.id == 0 || s.desc[g].flags.id == id
    ensures Inv(Armed(s, g, e, id))
  {
    assert LineOk(s, g);
    KeepInv(s, Armed(s, g, e, id), g);
  }

  /** gpio_setup_irq on an exported line, by the state of the line: a quiet line gets a new id, a
      line that reports edges keeps its id while it is set up again. */
  lemma SetupIrqKeepsInv(s: State, g: nat, want: Edges, env: IrqEnv)
    requires Inv(s) && g < |s.desc| && s.desc[g].flags.exported && EnvOk(s, g, env)
    ensures Inv(SetupIrq(s, g, want, env).0)
  {
    var t := SetupIrq(s, g, want, env).0;
    if t != s {
      if t == Quiet(s, g) {
        QuietKeepsInv(s, g);
      } else {
        var id := if Trigger(s.desc[g].flags) == NO_EDGES then env.id.value else s.desc[g].flags.id;
        assert t == Armed(s, g, want, id);
        assert LineOk(s, g);
        ArmedKeepsInv(s, g, want, id);
      }
    }
  }

  /** Changing the polarity of a line that reports one edge cannot be done in place: it goes
      through the quiet line. */
  lemma SetActiveLowKeepsInv(s: State, g: nat, low: bool, env: IrqEnv)
    requires Inv(s) && g < |s.desc| && EnvOk(s, g, env)
    ensures Inv(SetActiveLow(s, g, low, env).0)
  {
    assert LineOk(s, g);
    var e := Trigger(s.desc[g].flags);
    if s.desc[g].flags.activeLow != low {
      if e.fall != e.rise {
        FlippedQuietKeepsInv(s, g, low);
        FlipThenSilence(s, g, low, env);
        SetupIrqKeepsInv(FlippedQuiet(s, g, low), g, e, env);
      } else {
        KeepInv(s, SetFlags(s, g, s.desc[g].flags.(activeLow := low)), g);
      }
    }
  }

  function FlippedQuiet(s: State, g: nat, low: bool): State
    requires g < |s.desc|
  {
    var q := Quiet(s, g);
    SetFlags(q, g, q.desc[g].flags.(activeLow := low))
  }

  lemma FlippedQuietKeepsInv(s: State, g: nat, low: bool)
    requires Inv(s) && g < |s.desc|
    ensures Inv(FlippedQuiet(s, g, low))
  {
    QuietKeepsInv(s, g);
    assert LineOk(Quiet(s, g), g);
    KeepInv(Quiet(s, g), FlippedQuiet(s, g, low), g);
  }

  /** Flipping first and silencing then reaches the same state as silencing first. */
  lemma FlipThenSilence(s: State, g: nat, low: bool, env: IrqEnv)
    requires g < |s.desc| && Trigger(s.desc[g].flags) != NO_EDGES && Irq(s, g) >= 0
    ensures SetupIrq(SetFlags(s, g, s.desc[g].flags.(activeLow := low)), g, NO_EDGES, env).0
            == FlippedQuiet(s, g, low)
  {
    var t := SetFlags(s, g, s.desc[g].flags.(activeLow := low));
    assert Irq(t, g) == Irq(s, g);
    assert Quiet(t, g).desc == FlippedQuiet(s, g, low).desc;
  }

  /** What gpio_setup_irq needs of a line: as the invariant has it, but the installed handler may
      still listen to the edges of the opposite polarity. */
  predicate SetupReady(s: State, g: nat)
    requires g < |s.desc|
  {
    var d := s.desc[g];
    && TableOk(s)
    && d.chip.Some?
    && 0 !in s.idr
    && (forall id | id in s.idr && s.idr[id] == g :: id == d.flags.id)
    && (if Trigger(d.flags) == NO_EDGES
        then d.flags.id == 0 && d.actions == [] && d.valueRefs == 0
        else && d.flags.id in s.idr && s.idr[d.flags.id] == g && d.valueRefs == 1
             && |d.actions| == 1 && d.actions[0].irq == Irq(s, g))
  }

  lemma InvIsReady(s: State, g: nat)
    requires Inv(s) && g < |s.desc| && s.desc[g].flags.exported
    ensures SetupReady(s, g)
    ensures forall low :: SetupReady(SetFlags(s, g, s.desc[g].flags.(activeLow := low)), g)
  {
    assert LineOk(s, g);
    forall low ensures SetupReady(SetFlags(s, g, s.desc[g].flags.(activeLow := low)), g) {
      SameChipsKeepTable(s, SetFlags(s, g, s.desc[g].flags.(activeLow := low)));
    }
  }

  /** What sysfs_set_active_low relies on between flipping the polarity and setting up again. */
  lemma FlipIsReady(s: State, g: nat, low: bool, env: IrqEnv)
    requires Inv(s) && g < |s.desc| && s.desc[g].flags.exported && EnvOk(s, g, env)
    requires Trigger(s.desc[g].flags) != NO_EDGES
    ensures var t := SetFlags(s, g, s.desc[g].flags.(activeLow := low));
      && SetupReady(t, g) && EnvOk(t, g, env)
      && SetupIrq(t, g, NO_EDGES, env).0 == FlippedQuiet(s, g, low)
    ensures SetupReady(FlippedQuiet(s, g, low), g) && EnvOk(FlippedQuiet(s, g, low), g, env)
  {
    InvIsReady(s, g);
    assert Irq(s, g) >= 0 by {
      assert LineOk(s, g);
    }
    FlipThenSilence(s, g, low, env);
    FlippedQuietKeepsInv(s, g, low);
    InvIsReady(FlippedQuiet(s, g, low), g);
  }

  lemma ExportKeepsInv(s: State, g: int, ready: bool, deviceStatus: int)
    requires Inv(s)
    ensures Inv(Export(s, g, ready, deviceStatus).0)
  {
    var (t, a) := Export(s, g, ready, deviceStatus);
    if a == Returned(0) && t != s {
      assert LineOk(s, g);
      KeepInv(s, t, g);
    }
  }

  /** After gpio_unexport the line is quiet: its handler, id and reference are gone. */
  lemma UnexportKeepsInv(s: State, g: nat)
    requires Inv(s) && g < |s.desc|
    ensures Inv(Unexport(s, g))
    ensures !Unexport(s, g).desc[g].flags.exported
    ensures Unexport(s, g).desc[g].actions == [] && Unexport(s, g).desc[g].flags.id == 0
  {
    assert LineOk(s, g);
    if s.desc[g].flags.exported {
      var t := if Trigger(s.desc[g].flags) == NO_EDGES then s else Quiet(s, g);
      QuietKeepsInv(s, g);
      assert Unexport(s, g) == SetFlags(t, g, t.desc[g].flags.(exported := false));
      QuietLineUnexports(t, g);
    }
  }

  lemma QuietLineUnexports(t: State, g: nat)
    requires Inv(t) && g < |t.desc| && Trigger(t.desc[g].flags) == NO_EDGES
    ensures var u := SetFlags(t, g, t.desc[g].flags.(exported := false));
      Inv(u) && u.desc[g].actions == [] && u.desc[g].flags.id == 0
  {
    assert LineOk(t, g);
    KeepInv(t, SetFlags(t, g, t.desc[g].flags.(exported := false)), g);
  }

  // ----- steps that touch the table -----

  /** A table change that leaves requested lines alone and clears no line in use keeps the
      invariant of the lines. */
  lemma TableStepKeepsInv(s: State, t: State)
    requires Inv(s) && TableOk(t) && |t.desc| == |s.desc| && t.refs == s.refs && t.idr == s.idr
    requires forall g | 0 <= g < |s.desc| ::
      if s.desc[g].flags.requested
      then t.desc[g] == s.desc[g] && Irq(t, g) == Irq(s, g)
      else && !t.desc[g].flags.requested && !t.desc[g].flags.exported && t.desc[g].flags.id == 0
           && Trigger(t.desc[g].flags) == NO_EDGES
           && t.desc[g].actions == s.desc[g].actions && t.desc[g].valueRefs == s.desc[g].valueRefs
    ensures Inv(t)
  {
    forall g | 0 <= g < |t.desc| ensures LineOk(t, g) && Held(t.desc[g]) == Held(s.desc[g]) {
      assert LineOk(s, g);
    }
    OwnersPointwise(s.desc, t.desc);
    forall id | id in t.idr
      ensures 0 < id < 0x10000 && t.idr[id] < |t.desc| && t.desc[t.idr[id]].flags.id == id
    {
      assert LineOk(s, s.idr[id]);
    }
  }

  lemma AddKeepsInv(s: State, c: Chip)
    requires Inv(s) && c in s.base
    ensures Inv(Add(s, c).0)
  {
    var (t, e) := Add(s, c);
    AddKeepsTable(s, c);
    if e == 0 {
      NotYetInTable(s, c, t.base[c]);
      InstallKeepsInv(s, c, t.base[c]);
    }
  }

  lemma InstallKeepsInv(s: State, c: Chip, b: nat)
    requires Inv(s) && b + c.ngpio <= |s.desc| && TableOk(Install(s, c, b))
    requires forall j | b <= j < b + c.ngpio :: s.desc[j].chip.None?
    requires forall j | 0 <= j < |s.desc| :: s.desc[j].chip != Some(c)
    ensures Inv(Install(s, c, b))
  {
    var t := Install(s, c, b);
    forall g | 0 <= g < |s.desc|
      ensures s.desc[g].flags.requested ==> t.desc[g] == s.desc[g] && Irq(t, g) == Irq(s, g)
      ensures !s.desc[g].flags.requested ==>
        && !t.desc[g].flags.requested && !t.desc[g].flags.exported
        && t.desc[g].flags.id == 0 && Trigger(t.desc[g].flags) == NO_EDGES
    {
      assert LineOk(s, g);
    }
    TableStepKeepsInv(s, t);
  }

  lemma RemoveKeepsInv(s: State, c: Chip)
    requires Inv(s) && OwnsBlock(s, c)
    ensures Inv(Remove(s, c).0)
  {
    var (t, e) := Remove(s, c);
    RemoveKeepsTable(s, c);
    if e == 0 {
      forall g | 0 <= g < |s.desc|
        ensures s.desc[g].flags.requested ==> t.desc[g] == s.desc[g]
        ensures !s.desc[g].flags.requested ==>
          && !t.desc[g].flags.exported && t.desc[g].flags.id == 0
          && Trigger(t.desc[g].flags) == NO_EDGES
      {
        assert LineOk(s, g);
      }
      TableStepKeepsInv(s, t);
    }
  }

  lemma ReserveKeepsInv(s: State, start: int, n: int)
    requires Inv(s)
    ensures Inv(Reserve(s, start, n).0)
  {
    var t := Reserve(s, start, n).0;
    SameChipsKeepTable(s, t);
    forall g | 0 <= g < |s.desc|
      ensures s.desc[g].flags.requested ==> t.desc[g] == s.desc[g] && Irq(t, g) == Irq(s, g)
      ensures !s.desc[g].flags.requested ==>
        && !t.desc[g].flags.exported && t.desc[g].flags.id == 0
        && Trigger(t.desc[g].flags) == NO_EDGES
    {
      assert LineOk(s, g);
    }
    TableStepKeepsInv(s, t);
  }
}
