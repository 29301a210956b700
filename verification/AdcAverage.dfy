/** The moving average over the latest ADC samples, kept in a ring buffer with a running total. */
module AdcAverage {

  function Sum(s: seq<int>): int {
    if s == [] then 0 else s[0] + Sum(s[1..])
  }

  /** The last `n` elements, or all of them if there are fewer. */
  function Latest(s: seq<int>, n: nat): (r: seq<int>)
    ensures |r| == if |s| < n then |s| else n
  {
    if |s| < n then s else s[|s| - n..]
  }

  /** The plain moving average; 0 before the first sample. */
  function Mean(s: seq<int>, n: nat): int
    requires n > 0
  {
    if s == [] then 0 else Sum(Latest(s, n)) / |Latest(s, n)|
  }

  /** The samples that count: a negative one stands for the average so far. */
  function Effective(raw: seq<int>, n: nat): (e: seq<int>)
    requires n > 0
    ensures |e| == |raw|
  {
    if raw == [] then []
    else
      var e := Effective(raw[..|raw| - 1], n);
      e + [if raw[|raw| - 1] < 0 then Mean(e, n) else raw[|raw| - 1]]
  }

  // ----- sums -----

  lemma {:induction false} SumAppend(s: seq<int>, x: int)
    ensures Sum(s + [x]) == Sum(s) + x
  {
    if s == [] {
      assert [] + [x] == [x];
    } else {
      assert (s + [x])[1..] == s[1..] + [x];
      SumAppend(s[1..], x);
    }
  }

  /** Sliding the window: the oldest sample leaves the sum, the new one joins it. */
  lemma LatestSlides(s: seq<int>, x: int, n: nat)
    requires n > 0
    ensures Sum(Latest(s + [x], n)) ==
      Sum(Latest(s, n)) + x - if |s| < n then 0 else s[|s| - n]
  {
    if |s| < n {
      assert Latest(s + [x], n) == s + [x];
      SumAppend(s, x);
    } else {
      var w := Latest(s, n);
      assert Latest(s + [x], n) == w[1..] + [x];
      SumAppend(w[1..], x);
    }
  }

  lemma {:induction false} SumBounds(s: seq<int>, lo: int, hi: int)
    requires forall i | 0 <= i < |s| :: lo <= s[i] <= hi
    ensures lo * |s| <= Sum(s) <= hi * |s|
  {
    if s != [] {
      SumBounds(s[1..], lo, hi);
    }
  }

  lemma PositiveFactor(d: int, k: nat)
    requires d * k > 0
    ensures d > 0
  {
    assert d <= 0 ==> d * k <= 0;
  }

  lemma DivBounds(a: int, lo: int, hi: int, k: nat)
    requires k > 0 && lo * k <= a <= hi * k
    ensures lo <= a / k <= hi
  {
    var q := a / k;
    assert a == q * k + a % k;
    assert (q + 1 - lo) * k == q * k + k - lo * k;
    PositiveFactor(q + 1 - lo, k);
    assert (hi + 1 - q) * k == hi * k + k - q * k;
    PositiveFactor(hi + 1 - q, k);
  }

  /** The average lies between the smallest and the largest sample of the window, and once samples
      are within bounds, invalid ones cannot take the average out of them. */
  lemma MeanStaysWithinSamples(s: seq<int>, n: nat, lo: int, hi: int)
    requires n > 0 && s != []
    requires forall i | 0 <= i < |Latest(s, n)| :: lo <= Latest(s, n)[i] <= hi
    ensures lo <= Mean(s, n) <= hi
  {
    SumBounds(Latest(s, n), lo, hi);
    DivBounds(Sum(Latest(s, n)), lo, hi, |Latest(s, n)|);
  }

  lemma {:induction false} EffectiveWithinBounds(raw: seq<int>, n: nat, hi: int)
    requires n > 0 && hi >= 0
    requires forall i | 0 <= i < |raw| :: raw[i] <= hi
    ensures forall i | 0 <= i < |raw| :: 0 <= Effective(raw, n)[i] <= hi
  {
    if raw != [] {
      var init := raw[..|raw| - 1];
      EffectiveWithinBounds(init, n, hi);
      var e := Effective(init, n);
      if e != [] {
        MeanStaysWithinSamples(e, n, 0, hi);
      }
    }
  }

  // ----- the driver -----

  class AdcSample {
    const arr: array<int>
    var cnt: nat
    var index: nat
    var total: int
    var average: int
    /** Every sample so far, as it came from the ADC. */
    ghost var raw: seq<int>
    /** The same samples, with the invalid ones replaced. */
    ghost var effective: seq<int>

    ghost predicate Valid()
      reads this, arr
    {
      Averages() && effective == Effective(raw, arr.Length)
    }

    ghost predicate Averages()
      reads this, arr
    {
      var n := arr.Length;
      && n > 0
      && cnt == (if |effective| < n then |effective| else n)
      && total == Sum(Latest(effective, n))
      && average == Mean(effective, n)
      && RingHolds(effective)
    }

    /** While the ring fills, sample k is in cell k; afterwards the oldest of the last n samples
        follows the cell written last. */
    ghost predicate RingHolds(e: seq<int>)
      reads this`index, arr
    {
      var n := arr.Length;
      if |e| < n then
        (|e| > 0 ==> index == |e| - 1) && forall k | 0 <= k < |e| :: arr[k] == e[k]
      else
        index < n && forall k | 0 <= k < n :: arr[k] == e[|e| - n + Age(k, index, n)]
    }

    constructor (n: nat)
      requires n > 0
      ensures Valid() && raw == [] && arr.Length == n
    {
      arr := new int[n](_ => 0);
      cnt, index, total, average := 0, 0, 0, 0;
      raw, effective := [], [];
    }

    /** calculate_average_adc: the result is the plain moving average of the effective samples. */
    method CalculateAverage(adc: int) returns (result: int)
      requires Valid()
      modifies this, arr
      ensures Valid() && raw == old(raw) + [adc]
      ensures result == average == Mean(Effective(raw, arr.Length), arr.Length)
    {
      NextEffective(raw, adc, arr.Length);
      Push(if adc < 0 then average else adc);
      raw := raw + [adc];
      result := average;
    }

    method Push(value: int)
      requires Averages()
      modifies `cnt, `index, `total, `average, `effective, arr
      ensures Averages() && effective == old(effective) + [value]
    {
      ghost var e := effective;
      LatestSlides(e, value, arr.Length);
      effective := effective + [value];
      if cnt < arr.Length {
        Fill(value, e);
        Account(total + value, cnt);
      } else {
        var oldest := Replace(value, e);
        Account(total - oldest + value, arr.Length);
      }
    }

    /** Record the new total and average. */
    method Account(newTotal: int, count: nat)
      requires arr.Length > 0 && effective != []
      requires newTotal == Sum(Latest(effective, arr.Length))
      requires count == if |effective| < arr.Length then |effective| else arr.Length
      modifies `total, `average
      ensures total == newTotal && average == Mean(effective, arr.Length)
    {
      MeanFromTotal(effective, arr.Length, newTotal);
      total := newTotal;
      average := newTotal / count;
    }

    /** The ring is not full yet. */
    method Fill(value: int, ghost e: seq<int>)
      requires |e| == cnt < arr.Length && RingHolds(e)
      modifies `cnt, `index, arr
      ensures cnt == old(cnt) + 1 && RingHolds(e + [value])
    {
      arr[cnt] := value;
      index := cnt;
      cnt := cnt + 1;
      if cnt == arr.Length {
        assert forall k | 0 <= k < arr.Length :: Age(k, index, arr.Length) == k;
      }
    }

    /** The ring is full: the new sample takes the place of the oldest. */
    method Replace(value: int, ghost e: seq<int>) returns (oldest: int)
      requires |e| >= cnt == arr.Length > 0 && RingHolds(e)
      modifies `index, arr
      ensures oldest == e[|e| - arr.Length] && RingHolds(e + [value])
    {
      var next := index + 1;
      if next >= arr.Length {
        next := 0;
      }
      assert Age(next, index, arr.Length) == 0;
      oldest := arr[next];
      arr[next] := value;
      index := next;
    }
  }

  lemma NextEffective(raw: seq<int>, adc: int, n: nat)
    requires n > 0
    ensures Effective(raw + [adc], n) ==
      Effective(raw, n) + [if adc < 0 then Mean(Effective(raw, n), n) else adc]
  {
    assert (raw + [adc])[..|raw|] == raw;
  }

  lemma MeanFromTotal(s: seq<int>, n: nat, total: int)
    requires n > 0 && s != [] && total == Sum(Latest(s, n))
    ensures Mean(s, n) == total / if |s| < n then |s| else n
  {
  }

  /** The position of cell k among the n cells, counted from the oldest one. */
  function Age(k: nat, index: nat, n: nat): nat
    requires k < n && index < n
  {
    if k > index then k - index - 1 else k + n - index - 1
  }
}
