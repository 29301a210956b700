/** The low-battery counters of the MAX17050 driver: a table with a cell per current range, of which
    only the latest streak of hits in one range ever counts. */
module LowBattery {
  import opened Common

  /** The battery's table: current ranges and the line that gives each range's voltage threshold. */
  datatype Table = Table(range: seq<int>, offset: seq<int>, slope: seq<int>, compVoltage: int)

  predicate TableOk(t: Table) {
    && |t.range| >= 1 && |t.offset| == |t.range| && |t.slope| == |t.range|
    && forall i, j | 0 <= i < j < |t.range| :: t.range[i] < t.range[j]
  }

  /** One call of low_batt_compensation. */
  datatype Sample = Sample(soc: int, vcell: int, current: int, average: int)

  /** What a sample amounts to: a hit in a current range, a miss in some range, a current outside
      the table, or a voltage too high to look. */
  datatype Check = Hit(range: nat) | Miss | Outside | Skipped

  function MinCurrent(x: Sample): int {
    if x.average < x.current then x.average else x.current
  }

  predicate InRange(t: Table, i: nat, current: int)
    requires TableOk(t)
  {
    1 <= i < |t.range| && t.range[i - 1] <= current < t.range[i]
  }

  function Threshold(t: Table, i: nat, current: int): int
    requires TableOk(t) && i < |t.range|
  {
    t.offset[i] + CDiv(current * t.slope[i], 1000)
  }

  /** The range that a current falls in, or 0. */
  function RangeOf(t: Table, current: int, upto: nat): (r: nat)
    requires TableOk(t) && 1 <= upto <= |t.range|
    ensures r != 0 ==> r < upto && InRange(t, r, current)
    ensures r == 0 ==> forall i | 1 <= i < upto :: !InRange(t, i, current)
  {
    if upto == 1 then 0
    else if InRange(t, upto - 1, current) then upto - 1
    else RangeOf(t, current, upto - 1)
  }

  /** With strictly increasing ranges a current falls in at most one of them. */
  lemma RangeIsUnique(t: Table, current: int, i: nat, j: nat)
    requires TableOk(t) && InRange(t, i, current) && InRange(t, j, current)
    ensures i == j
  {
  }

  function Classify(t: Table, x: Sample): Check
    requires TableOk(t)
  {
    if x.vcell > t.compVoltage then Skipped
    else
      var r := RangeOf(t, MinCurrent(x), |t.range|);
      if r == 0 then Outside
      else if x.soc >= 2 && x.vcell < Threshold(t, r, MinCurrent(x)) then Hit(r) else Miss
  }

  /** A sample is a hit in a range exactly if its voltage is low enough to look and below the range's
      line, its charge is 2 percent or more, and the smaller of its two currents lies in the range. */
  lemma HitIff(t: Table, x: Sample, i: nat)
    requires TableOk(t)
    ensures Classify(t, x) == Hit(i) <==>
      var current := if x.average <= x.current then x.average else x.current;
      && x.vcell <= t.compVoltage && x.soc >= 2
      && 0 < i < |t.range| && t.range[i - 1] <= current < t.range[i]
      && x.vcell < t.offset[i] + CDiv(current * t.slope[i], 1000)
  {
    var current := MinCurrent(x);
    var r := RangeOf(t, current, |t.range|);
    if 0 < i < |t.range| && t.range[i - 1] <= current < t.range[i] {
      assert InRange(t, i, current);
      RangeIsUnique(t, current, i, r);
    }
  }

  /** A sample misses exactly if it is looked at, lies in some range, and is no hit. */
  lemma MissIff(t: Table, x: Sample)
    requires TableOk(t)
    ensures Classify(t, x) == Skipped <==> x.vcell > t.compVoltage
    ensures Classify(t, x) == Outside <==>
      var current := if x.average <= x.current then x.average else x.current;
      x.vcell <= t.compVoltage && !(t.range[0] <= current < t.range[|t.range| - 1])
  {
    var current := MinCurrent(x);
    if RangeOf(t, current, |t.range|) == 0 {
      NoRange(t, current, |t.range|);
    }
  }

  /** The ranges lie end to end. */
  lemma {:induction false} NoRange(t: Table, current: int, upto: nat)
    requires TableOk(t) && 1 <= upto <= |t.range| && RangeOf(t, current, upto) == 0
    ensures current < t.range[0] || current >= t.range[upto - 1]
  {
    if upto > 1 {
      NoRange(t, current, upto - 1);
    }
  }

  // ----- the streak, read off the history alone -----

  /** The range and length of the latest unbroken run of hits in one range; samples outside the
      table, or with a high voltage, neither extend nor break it. Range 0 means no run. */
  datatype Streak = Streak(range: nat, length: nat)

  function StreakOf(h: seq<Check>): Streak {
    if h == [] then Streak(0, 0)
    else
      var s := StreakOf(h[..|h| - 1]);
      match h[|h| - 1]
      case Hit(r) => if s.range == r then Streak(r, s.length + 1) else Streak(r, 1)
      case Miss => Streak(0, 0)
      case _ => s
  }

  lemma {:induction false} StreakHasRange(h: seq<Check>)
    requires forall i | 0 <= i < |h| && h[i].Hit? :: h[i].range > 0
    ensures StreakOf(h).length > 0 <==> StreakOf(h).range > 0
  {
    if h != [] {
      StreakHasRange(h[..|h| - 1]);
    }
  }

  /** Compensation is due exactly when a hit completes another full group of `most` hits. */
  predicate Due(h: seq<Check>, most: nat)
    requires most > 0
  {
    h != [] && h[|h| - 1].Hit? && StreakOf(h).length % most == 0
  }

  // ----- one counter instead of a table -----

  /** A counter that starts again from 0 whenever it reaches `most`. */
  function Cycle(n: nat, most: nat): (r: nat)
    requires most > 0
    ensures r < most
  {
    if n == 0 || Cycle(n - 1, most) + 1 == most then 0 else Cycle(n - 1, most) + 1
  }

  /** The single counter: how many hits of the streak are still pending. */
  function Pending(h: seq<Check>, most: nat): nat
    requires most > 0
  {
    Cycle(StreakOf(h).length, most)
  }

  /** Counting in a cycle is counting modulo its length. */
  lemma {:induction false} CycleIsModulo(n: nat, most: nat)
    requires most > 0
    ensures Cycle(n, most) == n % most
  {
    if n == 0 {
      DivModUnique(0, most, 0, 0);
    } else {
      CycleIsModulo(n - 1, most);
      ModuloNext(n - 1, most);
    }
  }

  lemma ModuloNext(n: nat, most: nat)
    requires most > 0
    ensures (n + 1) % most == if n % most + 1 == most then 0 else n % most + 1
  {
    var q, r := n / most, n % most;
    assert n == q * most + r;
    if r + 1 == most {
      assert n + 1 == (q + 1) * most;
      DivModUnique(n + 1, most, q + 1, 0);
    } else {
      DivModUnique(n + 1, most, q, r + 1);
    }
  }

  lemma NoMultipleBetween(d: int, m: nat)
    requires m > 0 && 0 < d * m + m && d * m < m
    ensures d == 0
  {
    assert d >= 1 ==> (d - 1) * m >= 0;
    assert d <= -1 ==> (-1 - d) * m >= 0;
  }

  lemma DivModUnique(n: nat, most: nat, q: int, r: nat)
    requires most > 0 && r < most && n == q * most + r
    ensures n % most == r
  {
    var q' := n / most;
    assert n == q' * most + n % most;
    assert (q - q') * most == n % most - r;
    NoMultipleBetween(q - q', most);
  }

  // ----- the driver -----

  class Gauge {
    const table: Table
    /** The number of hits in a row after which the driver compensates. */
    const most: nat
    /** low_batt_comp_cnt: a row per current range, a column per level. */
    const cnt: array2<nat>
    /** Every sample so far, as a check. */
    ghost var history: seq<Check>

    /** At most one cell is in use: the one of the streak's range, in the first column. */
    ghost predicate Holds(range: nat, pending: nat)
      reads this, cnt
    {
      forall i, j | 0 <= i < cnt.Length0 && 0 <= j < cnt.Length1 ::
        cnt[i, j] == if i + 1 == range && j == 0 then pending else 0
    }

    ghost predicate Shape()
      reads this
    {
      TableOk(table) && most > 0 && |table.range| <= cnt.Length0 + 1 && cnt.Length1 > 0
    }

    ghost predicate Valid()
      reads this, cnt
    {
      && Shape()
      && (forall i | 0 <= i < |history| && history[i].Hit? :: 0 < history[i].range < |table.range|)
      && Holds(StreakOf(history).range, Pending(history, most))
    }

    constructor (table: Table, most: nat, ranges: nat, levels: nat)
      requires TableOk(table) && most > 0 && |table.range| <= ranges + 1 && levels > 0
      ensures Valid() && history == [] && this.table == table && this.most == most
    {
      this.table, this.most := table, most;
      cnt := new nat[ranges, levels]((i, j) => 0);
      history := [];
    }

    /** add_low_batt_comp_cnt: one more hit in this cell, and every other cell back to 0. */
    method AddCnt(range: nat, level: nat)
      requires 1 <= range <= cnt.Length0 && level / 2 < cnt.Length1
      modifies cnt
      ensures forall i, j | 0 <= i < cnt.Length0 && 0 <= j < cnt.Length1 ::
        cnt[i, j] == if i + 1 == range && j == level / 2 then old(cnt[i, j]) + 1 else 0
    {
      cnt[range - 1, level / 2] := cnt[range - 1, level / 2] + 1;
      var i := 0;
      while i < cnt.Length0
        invariant 0 <= i <= cnt.Length0
        invariant cnt[range - 1, level / 2] == old(cnt[range - 1, level / 2]) + 1
        invariant forall a, b | 0 <= a < i && 0 <= b < cnt.Length1 && !(a + 1 == range && b == level / 2) ::
          cnt[a, b] == 0
      {
        var j := 0;
        while j < cnt.Length1
          invariant 0 <= j <= cnt.Length1
          invariant cnt[range - 1, level / 2] == old(cnt[range - 1, level / 2]) + 1
          invariant forall a, b | 0 <= a < i && 0 <= b < cnt.Length1 && !(a + 1 == range && b == level / 2) ::
            cnt[a, b] == 0
          invariant forall b | 0 <= b < j && !(i + 1 == range && b == level / 2) :: cnt[i, b] == 0
        {
          if i != range - 1 || j != level / 2 {
            cnt[i, j] := 0;
          }
          j := j + 1;
        }
        i := i + 1;
      }
    }

    /** reset_low_batt_comp_cnt. */
    method ResetCnt()
      modifies cnt
      ensures Holds(0, 0)
    {
      forall i, j | 0 <= i < cnt.Length0 && 0 <= j < cnt.Length1 {
        cnt[i, j] := 0;
      }
    }

    /** Some cell of the column for `level` is full. */
    ghost predicate FullAt(level: nat)
      reads this, cnt
    {
      exists i, j :: 0 <= i < cnt.Length0 && 0 <= j < cnt.Length1 && cnt[i, j] >= most && level == j * 2 + 1
    }

    /** check_low_batt_comp_condition: whether any cell is full, and the level of the last one. */
    method CheckCondition() returns (full: bool, level: nat)
      ensures !full ==> forall i, j | 0 <= i < cnt.Length0 && 0 <= j < cnt.Length1 :: cnt[i, j] < most
      ensures full ==> FullAt(level)
    {
      full, level := false, 0;
      var i := 0;
      while i < cnt.Length0
        invariant 0 <= i <= cnt.Length0
        invariant !full ==> forall a, b | 0 <= a < i && 0 <= b < cnt.Length1 :: cnt[a, b] < most
        invariant full ==> FullAt(level)
      {
        var j := 0;
        while j < cnt.Length1
          invariant 0 <= j <= cnt.Length1
          invariant !full ==> forall a, b | 0 <= a < i && 0 <= b < cnt.Length1 :: cnt[a, b] < most
          invariant !full ==> forall b | 0 <= b < j :: cnt[i, b] < most
          invariant full ==> FullAt(level)
        {
          if cnt[i, j] >= most {
            full := true;
            level := j * 2 + 1;
            break;
          }
          j := j + 1;
        }
        i := i + 1;
      }
    }

    /** One hit in a range: its cell counts on if it is the one in use, and starts at 1 if not. */
    method CountHit(r: nat, ghost range: nat, ghost pending: nat)
      requires Shape() && 1 <= r < |table.range| && Holds(range, pending)
      modifies cnt
      ensures Holds(r, if range == r then pending + 1 else 1)
    {
      AddCnt(r, 1);
    }

    /** The loop over the current ranges. */
    method CountSample(x: Sample, ghost range: nat, ghost pending: nat)
      requires Shape() && Holds(range, pending) && x.vcell <= table.compVoltage
      modifies cnt
      ensures match Classify(table, x)
        case Hit(r) => Holds(r, if range == r then pending + 1 else 1)
        case Miss => Holds(0, 0)
        case _ => Holds(range, pending)
    {
      var current := if x.average < x.current then x.average else x.current;
      ghost var r := RangeOf(table, current, |table.range|);
      var i := 1;
      while i < |table.range|
        invariant 1 <= i <= |table.range|
        invariant r == 0 || i <= r ==> Holds(range, pending)
        invariant r != 0 && r < i ==> match Classify(table, x)
          case Hit(q) => q == r && Holds(r, if range == r then pending + 1 else 1)
          case _ => Holds(0, 0)
      {
        if current >= table.range[i - 1] && current < table.range[i] {
          assert InRange(table, i, current);
          RangeIsUnique(table, current, i, r);
          if x.soc >= 2 && x.vcell < Threshold(table, i, current) {
            CountHit(i, range, pending);
          } else {
            ResetCnt();
          }
        }
        i := i + 1;
      }
    }

    /** Compensation, when the only cell in use is full. */
    method FireIfFull(ghost range: nat, ghost pending: nat) returns (fired: bool, level: nat)
      requires Shape() && Holds(range, pending) && pending <= most
      requires pending == most ==> 1 <= range <= cnt.Length0
      modifies cnt
      ensures fired == (pending == most) && Holds(range, if fired then 0 else pending)
      ensures fired ==> level == 1
    {
      ghost var due := pending == most;
      assert due ==> cnt[range - 1, 0] == most;
      fired, level := CheckCondition();
      if fired {
        ResetCnt();
      }
    }

    /** low_batt_compensation: it fires exactly when the streak of hits completes a full group, and
        the table of counters holds nothing but what is left of the streak. */
    method LowBattCompensation(x: Sample) returns (fired: bool, level: nat)
      requires Valid()
      modifies this, cnt
      ensures Valid() && history == old(history) + [Classify(table, x)]
      ensures fired == Due(history, most)
      ensures fired ==> level == 1
    {
      fired, level := false, 0;
      ghost var c := Classify(table, x);
      ghost var streak, pending := StreakOf(history), Pending(history, most);
      NextPending(history, c, most);
      if x.vcell <= table.compVoltage {
        CountSample(x, streak.range, pending);
        ghost var range := if c.Hit? then c.range else if c.Miss? then 0 else streak.range;
        ghost var next := if c.Hit? then (if streak.range == c.range then pending + 1 else 1)
                          else if c.Miss? then 0 else pending;
        fired, level := FireIfFull(range, next);
      }
      history := history + [c];
    }
  }

  /** How one more check moves the pending count: a full group leaves 0. */
  lemma NextPending(h: seq<Check>, c: Check, most: nat)
    requires most > 0
    requires forall i | 0 <= i < |h| && h[i].Hit? :: h[i].range > 0
    requires c.Hit? ==> c.range > 0
    ensures var s := StreakOf(h);
      var p := if c.Hit? then (if s.range == c.range then Pending(h, most) + 1 else 1) else 0;
      && (c.Hit? ==> StreakOf(h + [c]).range == c.range
                     && p <= most && Pending(h + [c], most) == if p == most then 0 else p)
      && (c.Miss? ==> StreakOf(h + [c]) == Streak(0, 0) && Pending(h + [c], most) == 0)
      && (c.Outside? || c.Skipped? ==> StreakOf(h + [c]) == s)
      && (Due(h + [c], most) <==> c.Hit? && p == most)
  {
    assert (h + [c])[..|h|] == h;
    StreakHasRange(h);
    CycleIsModulo(StreakOf(h + [c]).length, most);
  }
}
