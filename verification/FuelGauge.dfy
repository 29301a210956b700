/** The capacity that the MAX17050 driver lets the gauge learn when the battery is full. */
module FuelGauge {
  import opened Common

  function Percent(x: int, n: nat): int {
    CDiv(x * n, 100)
  }

  /** The FULLCAP and RemCapREP registers and the capacity of the last full charge. */
  datatype Gauge = Gauge(fullcap: nat, remcap: nat, previous: int)

  /** Which of the two reads of FULLCAP succeed; `error` is the negative result of a failing one. */
  datatype Reads = Reads(first: bool, second: bool, error: int)

  predicate ReadsOk(r: Reads) {
    -0x8000_0000 <= r.error < 0
  }

  /** How the remembered capacity is declared: as a signed or an unsigned 32-bit field. */
  datatype Field = Signed | Unsigned

  /** What a failing read leaves in that field. */
  function Stored(f: Field, x: int): int {
    if f == Unsigned then x % 0x1_0000_0000 else x
  }

  /** A percentage of that field; unsigned products wrap around. */
  function PercentOfField(f: Field, x: int, n: nat): int {
    if f == Unsigned then x * n % 0x1_0000_0000 / 100 else Percent(x, n)
  }

  /** The new capacity, and whether it is written to the registers. */
  function Limit(f: Field, capacity: nat, previous: int, reading: int): (int, bool) {
    if reading > Percent(capacity, 110) then (Percent(capacity, 110), true)
    else if reading < Percent(capacity, 50) then (Percent(capacity, 50), true)
    else if reading > PercentOfField(f, previous, 110) then (PercentOfField(f, previous, 110), true)
    else if reading < PercentOfField(f, previous, 90) then (PercentOfField(f, previous, 90), true)
    else (reading, false)
  }

  function Compensate(f: Field, capacity: nat, g: Gauge, io: Reads, preUpdate: bool): Gauge {
    var reading := if io.first then g.fullcap else capacity;
    var (value, write) := Limit(f, capacity, g.previous, reading);
    var g' := if write then g.(fullcap := value % 0x10000, remcap := value % 0x10000) else g;
    if preUpdate then g'
    else g'.(previous := if io.second then g'.fullcap else Stored(f, io.error))
  }

  predicate InBand(capacity: nat, x: int) {
    Percent(capacity, 50) <= x <= Percent(capacity, 110)
  }

  /** The registers hold 16 bits; the battery's capacity leaves room for 110 percent. */
  predicate Fits(capacity: nat) {
    Percent(capacity, 110) < 0x10000
  }

  // ----- one compensation -----

  lemma PercentIsMonotone(x: nat, y: nat, n: nat)
    requires x <= y
    ensures 0 <= Percent(x, n) <= Percent(y, n)
  {
    assert x * n <= y * n;
  }

  lemma PercentAround(x: nat)
    ensures Percent(x, 50) <= Percent(x, 90) <= x <= Percent(x, 110)
  {
  }

  /** For capacities of 16 bits the declaration makes no difference. */
  lemma FieldsAgree(f: Field, x: nat)
    requires x < 0x10000
    ensures PercentOfField(f, x, 110) == Percent(x, 110) && PercentOfField(f, x, 90) == Percent(x, 90)
  {
    NoWrap(x * 110);
    NoWrap(x * 90);
  }

  lemma NoWrap(x: int)
    ensures 0 <= x < 0x1_0000_0000 ==> x % 0x1_0000_0000 == x
    ensures -0x8000_0000 <= x < 0 ==> x % 0x1_0000_0000 == x + 0x1_0000_0000
  {
  }

  /** A failing read is never taken for a capacity of 16 bits. */
  lemma ErrorIsNoCapacity(f: Field, io: Reads)
    requires ReadsOk(io)
    ensures Stored(f, io.error) < 0 || Stored(f, io.error) >= 0x10000
  {
    NoWrap(io.error);
  }

  /** What the limits give for a remembered capacity in the band: a value in the band, and one
      within ten percent of the remembered capacity unless an absolute clamp decided. */
  lemma LimitByCase(f: Field, capacity: nat, previous: nat, reading: nat)
    requires Fits(capacity) && InBand(capacity, previous)
    ensures var (value, write) := Limit(f, capacity, previous, reading);
      && InBand(capacity, value) && 0 <= value < 0x10000
      && (InBand(capacity, reading) ==> Percent(previous, 90) <= value <= Percent(previous, 110))
      && (!write ==> value == reading)
  {
    PercentAround(previous);
    PercentAround(capacity);
    PercentIsMonotone(0, capacity, 50);
    FieldsAgree(f, previous);
  }

  /** What the register ends with, in numbers: a reading beyond 50 or 110 percent of the nominal capacity
      is taken as that bound; any other is taken as it is, if it is within ten percent of the last
      capacity, and as the nearer end of that range if not. */
  lemma LearnedCapacity(f: Field, capacity: nat, g: Gauge, io: Reads, preUpdate: bool)
    requires Fits(capacity) && io.first && InBand(capacity, g.previous)
    ensures var full := Compensate(f, capacity, g, io, preUpdate).fullcap;
      var x := g.fullcap;
      && (x > capacity * 110 / 100 ==> full == capacity * 110 / 100)
      && (x < capacity * 50 / 100 ==> full == capacity * 50 / 100)
      && (capacity * 50 / 100 <= x <= capacity * 110 / 100 ==>
            full == if x > g.previous * 110 / 100 then g.previous * 110 / 100
                    else if x < g.previous * 90 / 100 then g.previous * 90 / 100
                    else x)
  {
    FieldsAgree(f, g.previous);
    LimitByCase(f, capacity, g.previous, g.fullcap);
    SmallStays(Limit(f, capacity, g.previous, g.fullcap).0);
  }

  /** Unless it only prepares an update, a compensation remembers what the register ends with. */
  lemma RememberedCapacity(f: Field, capacity: nat, g: Gauge, io: Reads, preUpdate: bool)
    requires io.second
    ensures var g' := Compensate(f, capacity, g, io, preUpdate);
      && g'.previous == (if preUpdate then g.previous else g'.fullcap)
      && (g'.fullcap != g.fullcap ==> g'.remcap == g'.fullcap)
  {
  }

  /** A failing second read is remembered as the error number, or as what that is in unsigned 32 bits; and
      a percentage of it is taken in the same arithmetic. */
  lemma RememberedError(f: Field, capacity: nat, g: Gauge, io: Reads)
    requires ReadsOk(io) && !io.second
    ensures var g' := Compensate(f, capacity, g, io, false);
      && (f == Signed ==> g'.previous == io.error && PercentOfField(f, g'.previous, 90) <= 0)
      && (f == Unsigned ==> g'.previous == 0x1_0000_0000 + io.error
                            && 0 <= PercentOfField(f, g'.previous, 90) <= 0x1_0000_0000 / 100)
  {
    NoWrap(io.error);
  }

  /** With working reads both the register and the remembered capacity stay in the band; a failing
      first read leaves the register alone when the battery's own capacity is near the last one,
      and a failing second read is remembered as if it were a capacity. Hence the exact conditions. */
  lemma BandKeptIff(f: Field, capacity: nat, g: Gauge, io: Reads, preUpdate: bool)
    requires Fits(capacity) && ReadsOk(io) && InBand(capacity, g.previous)
    ensures var g' := Compensate(f, capacity, g, io, preUpdate);
      var registerOk := io.first || InBand(capacity, g.fullcap)
        || capacity > Percent(g.previous, 110) || capacity < Percent(g.previous, 90);
      && (InBand(capacity, g'.fullcap) <==> registerOk)
      && (InBand(capacity, g'.previous) <==> preUpdate || (io.second && registerOk))
  {
    PercentIsMonotone(0, capacity, 50);
    PercentAround(capacity);
    FieldsAgree(f, g.previous);
    ErrorIsNoCapacity(f, io);
    LimitByCase(f, capacity, g.previous, if io.first then g.fullcap else capacity);
    SmallStays(Limit(f, capacity, g.previous, if io.first then g.fullcap else capacity).0);
  }

  lemma SmallStays(x: int)
    ensures 0 <= x < 0x10000 ==> x % 0x10000 == x
  {
  }

  /** Apart from the two absolute clamps, one compensation moves the capacity by at most ten percent
      of the last one. */
  lemma LearningIsSlowIff(f: Field, capacity: nat, g: Gauge, io: Reads, preUpdate: bool)
    requires Fits(capacity) && io.first && InBand(capacity, g.previous)
    ensures var full := Compensate(f, capacity, g, io, preUpdate).fullcap;
      Percent(g.previous, 90) <= full <= Percent(g.previous, 110) <==>
        (g.fullcap > Percent(capacity, 110) ==> Percent(capacity, 110) <= Percent(g.previous, 110))
        && (g.fullcap < Percent(capacity, 50) ==> Percent(g.previous, 90) <= Percent(capacity, 50))
  {
    PercentIsMonotone(0, capacity, 50);
    FieldsAgree(f, g.previous);
    LimitByCase(f, capacity, g.previous, g.fullcap);
    SmallStays(Limit(f, capacity, g.previous, g.fullcap).0);
    PercentAround(g.previous);
    PercentAround(capacity);
  }

  /** So a reading that is far too high is learned faster than one that is just high: from 1000 of a
      nominal 2000 a reading of 2300 is taken as 2200 at once, beyond ten percent, but one of 2200 only
      as 1100. */
  lemma AbsoluteClampOvertakesSlowLimit(f: Field, io: Reads, remcap: nat, preUpdate: bool)
    requires io.first
    ensures var full := Compensate(f, 2000, Gauge(2300, remcap, 1000), io, preUpdate).fullcap;
      full == 2200 && full > Percent(1000, 110)
    ensures Compensate(f, 2000, Gauge(2200, remcap, 1000), io, preUpdate).fullcap == Percent(1000, 110)
  {
  }

  // ----- whole runs -----

  /** The gauge relearns FULLCAP by itself between two compensations. */
  datatype Round = Round(relearned: nat, preUpdate: bool)

  const WORKING := Reads(true, true, -1)

  function Run(f: Field, capacity: nat, g: Gauge, rounds: seq<Round>): Gauge
    decreases rounds
  {
    if rounds == [] then g
    else Run(f, capacity, Compensate(f, capacity, g.(fullcap := rounds[0].relearned), WORKING, rounds[0].preUpdate),
             rounds[1..])
  }

  /** Whatever the gauge learns in between, the last capacity never leaves the band, and neither does
      the register after any compensation. */
  lemma {:induction false} CapacityStaysInBand(f: Field, capacity: nat, g: Gauge, rounds: seq<Round>)
    requires Fits(capacity) && InBand(capacity, g.previous)
    ensures InBand(capacity, Run(f, capacity, g, rounds).previous)
    ensures rounds != [] ==> InBand(capacity, Run(f, capacity, g, rounds).fullcap)
    decreases rounds
  {
    if rounds != [] {
      var h := g.(fullcap := rounds[0].relearned);
      BandKeptIff(f, capacity, h, WORKING, rounds[0].preUpdate);
      CapacityStaysInBand(f, capacity, Compensate(f, capacity, h, WORKING, rounds[0].preUpdate), rounds[1..]);
    }
  }

  // ----- the driver -----

  class Max17050 {
    const capacity: nat
    const field: Field
    var fullcap: nat
    var remcap: nat
    var previousFullcap: int

    ghost function View(): Gauge
      reads this
    {
      Gauge(fullcap, remcap, previousFullcap)
    }

    constructor (field: Field, capacity: nat, fullcap: nat)
      ensures this.field == field && this.capacity == capacity && View() == Gauge(fullcap, 0, fullcap)
    {
      this.field, this.capacity, this.fullcap, remcap, previousFullcap := field, capacity, fullcap, 0, fullcap;
    }

    /** Both registers take the value as 16 bits. */
    method WriteCapacity(value: int)
      modifies `fullcap, `remcap
      ensures fullcap == remcap == value % 0x10000
    {
      remcap := value % 0x10000;
      fullcap := value % 0x10000;
    }

    /** previous_fullcap * n / 100, in the arithmetic of its declaration. */
    method PercentOfPrevious(n: nat) returns (r: int)
      ensures r == PercentOfField(field, previousFullcap, n)
    {
      var product := previousFullcap * n;
      if field == Unsigned {
        product := product % 0x1_0000_0000;
      }
      r := CDiv(product, 100);
    }

    /** fg_fullcharged_compensation. The remembered capacity is an error number after a failed read. */
    method FullchargedCompensation(io: Reads, preUpdate: bool)
      modifies this
      ensures View() == Compensate(field, capacity, old(View()), io, preUpdate)
    {
      var value: nat := if io.first then fullcap else capacity;
      if value > capacity * 110 / 100 {
        WriteCapacity(capacity * 110 / 100);
      } else if value < capacity * 50 / 100 {
        WriteCapacity(capacity * 50 / 100);
      } else {
        var most := PercentOfPrevious(110);
        var least := PercentOfPrevious(90);
        if value > most {
          WriteCapacity(most);
        } else if value < least {
          WriteCapacity(least);
        }
      }
      if !preUpdate {
        previousFullcap := if io.second then fullcap else Stored(field, io.error);
      }
    }
  }
}
