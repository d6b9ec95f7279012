// Shared vocabulary of the model: an Option type for values the C++ code
// reports through null pointers, flags or exceptions, and the C++ integer
// division, which truncates toward zero where Dafny's `/` is Euclidean.
module Base {

  datatype Option<T> = None | Some(value: T)

  /** Musical time in ticks (`timeT`, a `long`; its width is not modelled). */
  type TimeT = int

  /** `RealTime` as a signed count of nanoseconds: RealTime(s, ns) is s * 10^9 + ns. */
  type RealTime = int

  const NanosPerSecond: int := 1000000000

  /** `Device::ALL_DEVICES` and `Device::CONTROL_DEVICE` of the device header,
      which is not part of this model. */
  const AllDevices: int := 10001
  const ControlDevice: int := 10002

  /** C++ `a / b` on signed integers: the quotient rounded toward zero. */
  function CDiv(a: int, b: int): int
    requires b != 0
  {
    if (a >= 0) == (b > 0) then Abs(a) / Abs(b) else -(Abs(a) / Abs(b))
  }

  function Abs(a: int): int {
    if a < 0 then -a else a
  }

  /** The defining property of truncating division: the product `b * q` never
      passes `a` (it stays on `a`'s side of zero), and the remainder is
      smaller than `|b|` in magnitude. */
  lemma CDivTruncates(a: int, b: int)
    requires b != 0
    ensures Abs(b * CDiv(a, b)) <= Abs(a)
    ensures Abs(a - b * CDiv(a, b)) < Abs(b)
    ensures a >= 0 ==> a - b * CDiv(a, b) >= 0
    ensures a < 0 ==> a - b * CDiv(a, b) <= 0
  {
    var n, d := Abs(a), Abs(b);
    var q := n / d;
    DivBounds(n, d);
    if b > 0 {
      assert d == b;
      if a >= 0 {
        assert CDiv(a, b) == q;
      } else {
        assert CDiv(a, b) == -q;
        MulNeg(d, q);
      }
    } else {
      assert b == -d;
      MulNeg(d, q);
      if a >= 0 {
        assert CDiv(a, b) == -q;
        MulNeg(d, -q);
      } else {
        assert CDiv(a, b) == q;
      }
    }
  }

  lemma DivBounds(n: int, d: int)
    requires n >= 0 && d > 0
    ensures 0 <= d * (n / d) <= n < d * (n / d) + d
  {
  }

  lemma MulNeg(x: int, y: int)
    ensures (-x) * y == -(x * y) && x * (-y) == -(x * y)
  {
  }

  /** On non-negative operands and a positive divisor, C++ and Dafny agree. */
  lemma CDivNonNegative(a: int, b: int)
    requires a >= 0 && b > 0
    ensures CDiv(a, b) == a / b
  {
  }
}
