/** The descriptor table of gpiolib and the allocator over it: which chip manages which GPIO
    number, the downward scan for a free window, and registering and unregistering chips. */
module GpioTable {
  import opened Common

  /** A kernel module that owns chips; a chip without an owner is built in. */
  type Module = nat

  /** The parts of a gpio_chip that never change. `irqs` is its to_irq mapping, one entry per
      offset; an empty sequence stands for a chip without a to_irq hook. */
  datatype Chip = Chip(
    id: nat,
    ngpio: nat,
    owner: Option<Module>,
    hasRequest: bool,
    hasFree: bool,
    hasGet: bool,
    hasSet: bool,
    hasDirIn: bool,
    hasDirOut: bool,
    irqs: seq<int>)

  /** The flags word of a descriptor, read as fields (module FlagWord relates it to the bits). */
  datatype Flags = Flags(
    requested: bool,
    isOut: bool,
    reserved: bool,
    exported: bool,
    sysfs: bool,
    fall: bool,
    rise: bool,
    activeLow: bool,
    id: nat)

  /** One interrupt handler that gpiolib installed, with the physical edges it listens to. */
  datatype Action = Action(irq: int, falling: bool, rising: bool)

  /** A gpio_desc entry, together with what the IRQ core and sysfs hold on its behalf: the
      handlers whose cookie is this line's value file, and the references taken on that file. */
  datatype Desc = Desc(chip: Option<Chip>, flags: Flags, actions: seq<Action>, valueRefs: nat)

  /** The whole state: gpio_desc[], each chip's base field, the module references gpiolib holds,
      and the id allocator that maps an id to the line whose value file it names. */
  datatype State = State(
    desc: seq<Desc>,
    base: map<Chip, int>,
    refs: multiset<Module>,
    idr: map<nat, nat>)

  const ENOENT := 2
  const EIO := 5
  const ENXIO := 6
  const EBUSY := 16
  const ENODEV := 19
  const EINVAL := 22
  const ENOSPC := 28
  const ERANGE := 34

  predicate IsGpio(s: State, g: int) {
    0 <= g < |s.desc|
  }

  // ----- the table invariant -----

  /** Chip `c` manages every GPIO number of [base, base + ngpio). */
  predicate OwnsBlock(s: State, c: Chip) {
    && c in s.base
    && 0 <= s.base[c]
    && s.base[c] + c.ngpio <= |s.desc|
    && forall j | s.base[c] <= j < s.base[c] + c.ngpio :: s.desc[j].chip == Some(c)
  }

  predicate InBlock(s: State, c: Chip, g: int) {
    c in s.base && s.base[c] <= g < s.base[c] + c.ngpio
  }

  /** Every chip in the table owns its whole block and appears nowhere else. */
  predicate TableOk(s: State) {
    forall i | 0 <= i < |s.desc| && s.desc[i].chip.Some? ::
      OwnsBlock(s, s.desc[i].chip.value) && InBlock(s, s.desc[i].chip.value, i)
  }

  /** Blocks are exact, and blocks of different chips are disjoint. */
  lemma BlocksAreExactAndDisjoint(s: State, c: Chip, c': Chip, g: int)
    requires TableOk(s) && OwnsBlock(s, c) && OwnsBlock(s, c') && c != c'
    requires IsGpio(s, g)
    ensures s.desc[g].chip == Some(c) <==> InBlock(s, c, g)
    ensures !(InBlock(s, c, g) && InBlock(s, c', g))
  {
    if InBlock(s, c, g) {
      assert s.desc[g].chip == Some(c);
    }
  }

  // ----- free windows -----

  predicate IsFree(d: Desc) {
    d.chip.None? && !d.flags.reserved
  }

  predicate WindowFree(d: seq<Desc>, b: int, n: nat) {
    0 <= b && b + n <= |d| && forall j | b <= j < b + n :: IsFree(d[j])
  }

  /** The simple search that the skipping scan must agree with: try every base below `below`,
      highest first. */
  function HighestWindow(d: seq<Desc>, n: nat, below: nat): (r: Option<nat>)
    ensures r.Some? ==> r.value < below && WindowFree(d, r.value, n)
    ensures r.Some? ==> forall a | r.value < a < below :: !WindowFree(d, a, n)
    ensures r.None? ==> forall a | 0 <= a < below :: !WindowFree(d, a, n)
  {
    if below == 0 then None
    else if WindowFree(d, below - 1, n) then Some(below - 1)
    else HighestWindow(d, n, below - 1)
  }

  /** A scan that found no window above `b` but a window at `b` found the highest one. */
  lemma HighestIs(d: seq<Desc>, n: nat, b: nat, below: nat)
    requires b < below && WindowFree(d, b, n)
    requires forall a | b < a < below :: !WindowFree(d, a, n)
    ensures HighestWindow(d, n, below) == Some(b)
  {
    var r := HighestWindow(d, n, below);
  }

  // ----- registering a chip -----

  function FreshFlags(c: Chip): Flags {
    Flags(false, !c.hasDirIn, false, false, false, false, false, false, 0)
  }

  /** The table after `c` took over the window of its size at `b`. */
  function Install(s: State, c: Chip, b: nat): (r: State)
    requires b + c.ngpio <= |s.desc|
    ensures |r.desc| == |s.desc| && r.base == s.base[c := b] && r.refs == s.refs && r.idr == s.idr
    ensures forall i | 0 <= i < |s.desc| ::
      r.desc[i] == if b <= i < b + c.ngpio
                   then s.desc[i].(chip := Some(c), flags := FreshFlags(c)) else s.desc[i]
  {
    s.(base := s.base[c := b],
       desc := seq(|s.desc|, i requires 0 <= i < |s.desc| =>
         if b <= i < b + c.ngpio
         then s.desc[i].(chip := Some(c), flags := FreshFlags(c)) else s.desc[i]))
  }

  predicate AnyChip(d: seq<Desc>, b: nat, n: nat)
    requires b + n <= |d|
  {
    exists j :: b <= j < b + n && d[j].chip.Some?
  }

  /** gpiochip_add: a negative base asks for the highest free window. A dynamic add has no busy
      outcome: the driver's second check, on the window just found, cannot fail. */
  function Add(s: State, c: Chip): (r: (State, int))
    requires c in s.base
  {
    var b := s.base[c];
    if b < 0 then
      var w := if c.ngpio == 0 then None else HighestWindow(s.desc, c.ngpio, |s.desc|);
      if w.None? then (s, -ENOSPC) else (Install(s, c, w.value), 0)
    else if !(IsGpio(s, b) && IsGpio(s, b + c.ngpio - 1)) then (s, -EINVAL)
    else if AnyChip(s.desc, b, c.ngpio) then (s, -EBUSY)
    else (Install(s, c, b), 0)
  }

  /** gpiochip_remove: refused while any line of the chip is requested. */
  predicate AnyRequested(s: State, c: Chip)
    requires OwnsBlock(s, c)
  {
    exists j :: s.base[c] <= j < s.base[c] + c.ngpio && s.desc[j].flags.requested
  }

  function Uninstall(s: State, c: Chip): (r: State)
    requires OwnsBlock(s, c)
    ensures |r.desc| == |s.desc| && r.base == s.base && r.refs == s.refs && r.idr == s.idr
    ensures forall i | 0 <= i < |s.desc| ::
      r.desc[i] == if InBlock(s, c, i) then s.desc[i].(chip := None) else s.desc[i]
  {
    s.(desc := seq(|s.desc|, i requires 0 <= i < |s.desc| =>
         if InBlock(s, c, i) then s.desc[i].(chip := None) else s.desc[i]))
  }

  function Remove(s: State, c: Chip): (r: (State, int))
    requires OwnsBlock(s, c)
  {
    if AnyRequested(s, c) then (s, -EBUSY) else (Uninstall(s, c), 0)
  }

  /** Reserving marks the numbers from `start` up to the first one that is not free. */
  function FirstBusy(d: seq<Desc>, start: nat, end: nat): (k: nat)
    requires start <= end <= |d|
    ensures start <= k <= end
    ensures forall j | start <= j < k :: IsFree(d[j])
    ensures k < end ==> !IsFree(d[k])
    decreases end - start
  {
    if start == end || !IsFree(d[start]) then start else FirstBusy(d, start + 1, end)
  }

  function MarkReserved(s: State, start: nat, end: nat): (r: State)
    requires start <= end <= |s.desc|
    ensures |r.desc| == |s.desc| && r.base == s.base && r.refs == s.refs && r.idr == s.idr
    ensures forall i | 0 <= i < |s.desc| ::
      r.desc[i] == if start <= i < end
                   then s.desc[i].(flags := s.desc[i].flags.(reserved := true)) else s.desc[i]
  {
    s.(desc := seq(|s.desc|, i requires 0 <= i < |s.desc| =>
         if start <= i < end
         then s.desc[i].(flags := s.desc[i].flags.(reserved := true)) else s.desc[i]))
  }

  function Reserve(s: State, start: int, n: int): (r: (State, int)) {
    if !IsGpio(s, start) || !IsGpio(s, start + n - 1) then (s, -EINVAL)
    else if n <= 0 then (s, 0)
    else
      var k := FirstBusy(s.desc, start, start + n);
      (MarkReserved(s, start, k), if k < start + n then -EBUSY else 0)
  }

  // ----- what the allocator promises -----

  /** A dynamic add succeeds exactly when some window is free, and then takes the highest one;
      in particular it never fails with -EBUSY. */
  lemma DynamicAddTakesHighestWindow(s: State, c: Chip)
    requires c in s.base && s.base[c] < 0 && c.ngpio > 0
    ensures var (t, e) := Add(s, c);
      if exists b :: WindowFree(s.desc, b, c.ngpio)
      then e == 0 && WindowFree(s.desc, t.base[c], c.ngpio)
           && (forall a | a > t.base[c] :: !WindowFree(s.desc, a, c.ngpio))
           && OwnsBlock(t, c)
      else e == -ENOSPC
  {
    var w := HighestWindow(s.desc, c.ngpio, |s.desc|);
    if b :| WindowFree(s.desc, b, c.ngpio) {
      assert 0 <= b < |s.desc|;
      var t := Install(s, c, w.value);
      forall a | a > w.value ensures !WindowFree(s.desc, a, c.ngpio) {
      }
    }
  }

  /** A static add looks at chips alone: it takes its window exactly if the window fits and no number in
      it has a chip, reserved or not. Only a window that does not fit is invalid. */
  lemma StaticAddOutcome(s: State, c: Chip, b: int)
    requires c in s.base && s.base[c] == b >= 0 && c.ngpio > 0
    ensures var e := Add(s, c).1;
      && (e == 0 <==> b + c.ngpio <= |s.desc| && forall i | b <= i < b + c.ngpio :: s.desc[i].chip == None)
      && (e == -EINVAL <==> b + c.ngpio > |s.desc|)
      && (e == -EBUSY <==> b + c.ngpio <= |s.desc| && exists i :: b <= i < b + c.ngpio && s.desc[i].chip != None)
  {
  }

  /** What a successful add writes: the chip and fresh flags at exactly the numbers of its window - a
      reservation there is used up - and the chip's base if the add chose it. */
  lemma AddWritesTheWindow(s: State, c: Chip)
    requires c in s.base && Add(s, c).1 == 0
    ensures var t := Add(s, c).0;
      && |t.desc| == |s.desc| && t.refs == s.refs && t.idr == s.idr
      && t.base == s.base[c := t.base[c]] && (s.base[c] >= 0 ==> t.base[c] == s.base[c]) && t.base[c] >= 0
      && forall i | 0 <= i < |s.desc| :: t.desc[i] ==
           if t.base[c] <= i < t.base[c] + c.ngpio
           then s.desc[i].(chip := Some(c),
                           flags := Flags(false, !c.hasDirIn, false, false, false, false, false, false, 0))
           else s.desc[i]
  {
  }

  /** Every number from `first` to `last` is without a chip and not reserved. */
  predicate Unused(d: seq<Desc>, first: int, last: int) {
    forall i | first <= i <= last :: 0 <= i < |d| && d[i].chip.None? && !d[i].flags.reserved
  }

  /** Reserving succeeds exactly if the numbers fit and are all unused; it marks the numbers up to the
      first one that is not. */
  lemma ReserveOutcome(s: State, start: int, n: int)
    ensures var (t, e) := Reserve(s, start, n);
      var fits := 0 <= start < |s.desc| && 0 <= start + n - 1 < |s.desc|;
      && (e == -EINVAL <==> !fits)
      && (e == 0 <==> fits && Unused(s.desc, start, start + n - 1))
      && (e == -EBUSY <==> fits && !Unused(s.desc, start, start + n - 1))
      && |t.desc| == |s.desc|
      && forall i | 0 <= i < |s.desc| :: t.desc[i] ==
           if fits && start <= i < start + n && Unused(s.desc, start, i)
           then s.desc[i].(flags := s.desc[i].flags.(reserved := true)) else s.desc[i]
  {
    if 0 <= start < |s.desc| && 0 <= start + n - 1 < |s.desc| && n > 0 {
      var k := FirstBusy(s.desc, start, start + n);
      assert forall j | start <= j < k :: s.desc[j].chip.None? && !s.desc[j].flags.reserved;
      assert k < start + n ==> s.desc[k].chip.Some? || s.desc[k].flags.reserved;
      assert k < start + n ==> !Unused(s.desc, start, start + n - 1);
      forall i | start <= i < start + n ensures i < k <==> Unused(s.desc, start, i) {
      }
    }
  }

  /** What reserving is for: numbers that were reserved for a driver stay out of every dynamic add, and
      the driver takes them with a static one. */
  lemma ReservedWindowIsForStaticAdd(s: State, start: int, c: Chip, d: Chip)
    requires c.ngpio > 0 && Reserve(s, start, c.ngpio).1 == 0
    requires c in s.base && s.base[c] == start && d in s.base && s.base[d] < 0
    ensures var t := Reserve(s, start, c.ngpio).0;
      && Add(t, c).1 == 0
      && (Add(t, d).1 == 0 ==> forall i | start <= i < start + c.ngpio :: !InBlock(Add(t, d).0, d, i))
  {
    ReserveOutcome(s, start, c.ngpio);
    var t := Reserve(s, start, c.ngpio).0;
    StaticAddOutcome(t, c, start);
    if Add(t, d).1 == 0 {
      var b := Add(t, d).0.base[d];
      assert WindowFree(t.desc, b, d.ngpio);
      forall i | start <= i < start + c.ngpio ensures !InBlock(Add(t, d).0, d, i) {
        assert t.desc[i].flags.reserved && !IsFree(t.desc[i]);
      }
    }
  }

  /** Removing is refused exactly while a line of the chip is requested; otherwise the chip disappears
      from every number, and nothing else changes. */
  lemma RemoveOutcome(s: State, c: Chip)
    requires TableOk(s) && OwnsBlock(s, c)
    ensures var (t, e) := Remove(s, c);
      var used := exists i :: 0 <= i < |s.desc| && s.desc[i].chip == Some(c) && s.desc[i].flags.requested;
      && e == (if used then -EBUSY else 0)
      && |t.desc| == |s.desc| && t.base == s.base && t.refs == s.refs && t.idr == s.idr
      && forall i | 0 <= i < |s.desc| :: t.desc[i] ==
           if !used && s.desc[i].chip == Some(c) then s.desc[i].(chip := None) else s.desc[i]
  {
    forall i | 0 <= i < |s.desc| ensures s.desc[i].chip == Some(c) <==> InBlock(s, c, i) {
      if s.desc[i].chip == Some(c) {
        assert InBlock(s, s.desc[i].chip.value, i);
      }
    }
  }

  /** A failed add changes nothing, and a chip that is already in the table is refused. */
  lemma FailedAddChangesNothing(s: State, c: Chip)
    requires TableOk(s) && c in s.base
    ensures Add(s, c).1 != 0 ==> Add(s, c).0 == s
    ensures c.ngpio > 0 && OwnsBlock(s, c) ==> Add(s, c).1 == -EBUSY
  {
    if c.ngpio > 0 && OwnsBlock(s, c) {
      assert s.desc[s.base[c]].chip == Some(c);
    }
  }

  /** Add keeps the table invariant and the base of every chip already registered. */
  lemma AddKeepsTable(s: State, c: Chip)
    requires TableOk(s) && c in s.base
    ensures TableOk(Add(s, c).0)
    ensures forall c' | c' != c && c' in s.base ::
      c' in Add(s, c).0.base && Add(s, c).0.base[c'] == s.base[c']
    ensures Add(s, c).1 == 0 ==> OwnsBlock(Add(s, c).0, c)
  {
    var (t, e) := Add(s, c);
    if e == 0 {
      var b := t.base[c];
      assert forall j | b <= j < b + c.ngpio :: s.desc[j].chip.None?;
      NotYetInTable(s, c, b);
      forall i | 0 <= i < |t.desc| && t.desc[i].chip.Some?
        ensures OwnsBlock(t, t.desc[i].chip.value) && InBlock(t, t.desc[i].chip.value, i)
      {
        if !(b <= i < b + c.ngpio) {
          OtherBlockKept(s, t, c, b, i);
        }
      }
    }
  }

  /** A chip whose target window is free of chips is not in the table yet. */
  lemma NotYetInTable(s: State, c: Chip, b: nat)
    requires TableOk(s) && c in s.base && b + c.ngpio <= |s.desc|
    requires s.base[c] < 0 || s.base[c] == b
    requires forall j | b <= j < b + c.ngpio :: s.desc[j].chip.None?
    ensures forall i | 0 <= i < |s.desc| :: s.desc[i].chip != Some(c)
  {
    forall i | 0 <= i < |s.desc| ensures s.desc[i].chip != Some(c) {
      if s.desc[i].chip.Some? {
        var c' := s.desc[i].chip.value;
        assert OwnsBlock(s, c') && InBlock(s, c', i);
        assert forall j | InBlock(s, c', j) :: s.desc[j].chip == Some(c');
        assert InBlock(s, c', b) ==> s.desc[b].chip.Some?;
      }
    }
  }

  lemma OtherBlockKept(s: State, t: State, c: Chip, b: nat, i: nat)
    requires TableOk(s) && b + c.ngpio <= |s.desc| && t == Install(s, c, b)
    requires forall j | b <= j < b + c.ngpio :: s.desc[j].chip.None?
    requires forall j | 0 <= j < |s.desc| :: s.desc[j].chip != Some(c)
    requires i < |s.desc| && !(b <= i < b + c.ngpio) && s.desc[i].chip.Some?
    ensures OwnsBlock(t, s.desc[i].chip.value) && InBlock(t, s.desc[i].chip.value, i)
  {
    var c' := s.desc[i].chip.value;
    assert OwnsBlock(s, c') && InBlock(s, c', i);
    forall j | s.base[c'] <= j < s.base[c'] + c'.ngpio ensures t.desc[j].chip == Some(c') {
      assert s.desc[j].chip == Some(c');
    }
  }

  lemma RemoveKeepsTable(s: State, c: Chip)
    requires TableOk(s) && OwnsBlock(s, c)
    ensures TableOk(Remove(s, c).0)
  {
    var t := Uninstall(s, c);
    assert forall j | InBlock(s, c, j) :: s.desc[j].chip == Some(c);
    forall i | 0 <= i < |t.desc| && t.desc[i].chip.Some?
      ensures OwnsBlock(t, t.desc[i].chip.value) && InBlock(t, t.desc[i].chip.value, i)
    {
      var c' := s.desc[i].chip.value;
      assert OwnsBlock(s, c') && InBlock(s, c', i) && !InBlock(s, c, i);
      forall j | s.base[c'] <= j < s.base[c'] + c'.ngpio ensures t.desc[j].chip == Some(c') {
        assert s.desc[j].chip == Some(c');
      }
    }
  }

  /** After a successful remove the chip's window is free for its next dynamic add, unless a
      number in it is reserved. */
  lemma {:induction false} RemoveFreesTheWindow(s: State, c: Chip)
    requires TableOk(s) && OwnsBlock(s, c) && Remove(s, c).1 == 0
    ensures forall i | 0 <= i < |s.desc| :: Remove(s, c).0.desc[i].chip != Some(c)
    ensures (forall j | InBlock(s, c, j) :: !s.desc[j].flags.reserved)
      ==> WindowFree(Remove(s, c).0.desc, s.base[c], c.ngpio)
  {
    forall i | 0 <= i < |s.desc| ensures Remove(s, c).0.desc[i].chip != Some(c) {
      if s.desc[i].chip == Some(c) {
        assert InBlock(s, c, i);
      }
    }
  }

  /** Anything that leaves the chip column and the bases alone keeps the table invariant. */
  lemma SameChipsKeepTable(s: State, t: State)
    requires TableOk(s) && |t.desc| == |s.desc| && t.base == s.base
    requires forall i | 0 <= i < |s.desc| :: t.desc[i].chip == s.desc[i].chip
    ensures TableOk(t)
  {
    forall i | 0 <= i < |t.desc| && t.desc[i].chip.Some?
      ensures OwnsBlock(t, t.desc[i].chip.value) && InBlock(t, t.desc[i].chip.value, i)
    {
      assert OwnsBlock(s, s.desc[i].chip.value) && InBlock(s, s.desc[i].chip.value, i);
    }
  }
}
