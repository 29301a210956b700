/** Small things that several drivers share. */
module Common {

  datatype Option<+T> = None | Some(value: T)

  /** Division as C does it: towards zero. */
  function CDiv(a: int, b: int): int
    requires b > 0
  {
    if a >= 0 then a / b else -((-a) / b)
  }

  lemma CDivTruncates(a: int, b: int)
    requires b > 0
    ensures a >= 0 ==> CDiv(a, b) * b <= a < CDiv(a, b) * b + b
    ensures a < 0 ==> CDiv(a, b) * b - b < a <= CDiv(a, b) * b
  {
    var n := if a >= 0 then a else -a;
    assert n == n / b * b + n % b;
  }
}
