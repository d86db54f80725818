/** Integer widths, bytes and conversions shared by every component. */
module Common {

  datatype Option<+T> = None | Some(value: T)

  type byte = x: int | 0 <= x < 0x100
  type int8 = x: int | -0x80 <= x < 0x80
  type uint32 = x: int | 0 <= x < 0x1_0000_0000

  function Min(a: nat, b: nat): nat {
    if a < b then a else b
  }

  /** `++x` on a uint32_t. */
  function Increment(x: uint32): uint32 {
    (x + 1) % 0x1_0000_0000
  }

  /** Integer division of C++: the quotient is rounded toward zero. */
  function TruncDiv(a: int, b: int): int
    requires b > 0
  {
    if a >= 0 then a / b else -((-a) / b)
  }

  /** Conversion of an int to int8_t and uint8_t: two's complement wrap-around. */
  function NarrowToInt8(x: int): int8 {
    (x + 0x80) % 0x100 - 0x80
  }

  function NarrowToByte(x: int): byte {
    x % 0x100
  }

  /** The integral part of a real, as a C++ floating-integral conversion discards the fraction. */
  function Truncate(x: real): int {
    if x >= 0.0 then x.Floor else -((-x).Floor)
  }

  /** Truncation toward zero is odd, monotone, exact on whole numbers, and never moves past them. */
  lemma TruncateFacts(x: real, m: int)
    ensures Truncate(-x) == -Truncate(x)
    ensures x == m as real ==> Truncate(x) == m
    ensures m >= 0 && x > m as real ==> Truncate(x) >= m
    ensures m >= 0 && x < -(m as real) ==> Truncate(x) <= -m
    ensures m >= 0 && -(m as real) <= x <= m as real ==> -m <= Truncate(x) <= m
    ensures m >= 0 && -(m as real) < x < m as real ==> -m < Truncate(x) < m
  {
    assert m as real == (m as real).Floor as real;
  }

  /** n is the real with its fraction discarded. */
  predicate TruncatesTo(x: real, n: int) {
    if x >= 0.0 then n as real <= x < (n + 1) as real else (n - 1) as real < x <= n as real
  }

  lemma TruncateDiscardsFraction(x: real)
    ensures TruncatesTo(x, Truncate(x))
  {
    assert x.Floor as real <= x < (x.Floor + 1) as real;
    assert (-x).Floor as real <= -x < ((-x).Floor + 1) as real;
  }

  predicate Within(x: real, b: real) {
    -b <= x <= b
  }

  /** Multiplying by a non-negative factor keeps a symmetric bound. */
  lemma ScaleBound(k: real, x: real, b: real)
    requires k >= 0.0 && Within(x, b)
    ensures Within(k * x, k * b)
  {
    assert k * (b - x) >= 0.0 && k * (b + x) >= 0.0;
    assert k * (b - x) == k * b - k * x && k * (b + x) == k * b + k * x;
  }
}
