/** Java's 32-bit two's-complement `int`: the counters of the client-streaming
    handler and the integer fields of the catalog and of the messages. */
module JavaInt {

  const TwoTo32: int := 0x1_0000_0000
  const MinInt: int := -0x8000_0000
  const MaxInt: int := 0x7fff_ffff

  /** The values a Java `int` can hold. */
  type int32 = x: int | MinInt <= x <= MaxInt

  /** Narrowing of a mathematical integer to an `int`, as Java's `+`, `*`,
      `++` and `+=` on `int` operands do: the unique `int` congruent to `x`
      modulo 2^32. */
  function Wrap(x: int): (r: int32)
    ensures (r - x) % TwoTo32 == 0
    decreases if x > MaxInt then x - MaxInt else if x < MinInt then MinInt - x else 0
  {
    if x > MaxInt then Wrap(x - TwoTo32)
    else if x < MinInt then Wrap(x + TwoTo32)
    else x
  }

  lemma MultipleOfModulus(k: int)
    ensures (k * TwoTo32) % TwoTo32 == 0
  {
  }

  /** Two `int` values that agree modulo 2^32 are equal. */
  lemma {:induction false} Int32Congruent(a: int32, b: int32)
    requires (a - b) % TwoTo32 == 0
    ensures a == b
  {
    var d := a - b;
    assert -TwoTo32 < d < TwoTo32;
  }

  /** Wrapping a value that already fits changes nothing. */
  lemma WrapInRange(x: int)
    requires MinInt <= x <= MaxInt
    ensures Wrap(x) == x
  {
    Int32Congruent(Wrap(x), x);
  }

  lemma WrapFits(x: int)
    ensures MinInt <= x <= MaxInt ==> Wrap(x) == x
  {
    if MinInt <= x <= MaxInt {
      WrapInRange(x);
    }
  }

  /** Wrap is compatible with addition: wrapping an intermediate sum
      (Java's per-operation overflow) gives the same `int` as wrapping once at
      the end. */
  lemma WrapAdd(x: int, y: int)
    ensures Wrap(Wrap(x) + Wrap(y)) == Wrap(x + y)
  {
    var wx, wy := Wrap(x), Wrap(y);
    var p, q := (wx - x) / TwoTo32, (wy - y) / TwoTo32;
    assert wx - x == p * TwoTo32;
    assert wy - y == q * TwoTo32;
    var lhs, rhs := Wrap(wx + wy), Wrap(x + y);
    Congruence(lhs, wx + wy, rhs, x + y, p + q);
    Int32Congruent(lhs, rhs);
  }

  lemma Congruence(a: int, u: int, b: int, v: int, k: int)
    requires (a - u) % TwoTo32 == 0 && (b - v) % TwoTo32 == 0
    requires u - v == k * TwoTo32
    ensures (a - b) % TwoTo32 == 0
  {
    var s, t := (a - u) / TwoTo32, (b - v) / TwoTo32;
    assert a - u == s * TwoTo32;
    assert b - v == t * TwoTo32;
    assert a - b == (s - t + k) * TwoTo32;
    MultipleOfModulus(s - t + k);
  }
}
