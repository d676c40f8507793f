/** Value conventions of the C# runtime that the rest of the model writes out explicitly. */
module Prelude {

  /** C# `byte`: an unsigned 8-bit value. */
  type byte = b: int | 0 <= b < 256

  /** C# `int`: a signed 32-bit value. */
  type int32 = x: int | -0x8000_0000 <= x <= 0x7FFF_FFFF

  datatype Option<T> = None | Some(value: T)

  /** C# `(byte)n` in an unchecked context: the low eight bits of the two's-complement value. */
  function ToByte(n: int): (b: byte)
    ensures 0 <= n < 256 ==> b == n
    ensures (n - b) % 256 == 0
  {
    n % 256
  }

  /** C# integer division `a / d` for a positive divisor: the quotient is truncated toward zero. */
  function Quot(a: int, d: int): int
    requires d > 0
  {
    if a >= 0 then a / d else -((-a) / d)
  }

  /** C# remainder `a % d` for a positive divisor: it takes the sign of the dividend. */
  function Rem(a: int, d: int): int
    requires d > 0
  {
    a - Quot(a, d) * d
  }

  /** On a non-negative dividend, C# division and remainder agree with Dafny's. */
  lemma QuotRemNonNegative(a: int, d: int)
    requires a >= 0 && d > 0
    ensures Quot(a, d) == a / d && Rem(a, d) == a % d
  {
  }

  /** A freshly allocated C# `byte[n]`: every element is zero. */
  function Zeros(n: nat): (s: seq<byte>)
    ensures |s| == n && forall i | 0 <= i < n :: s[i] == 0
  {
    seq(n, _ => 0)
  }

  function Max(a: int, b: int): int { if a >= b then a else b }

  function Min(a: int, b: int): int { if a <= b then a else b }

  /** Regrouping a concatenation (spelled out so that callers need not reason about lengths). */
  lemma ConcatAssoc<T>(a: seq<T>, b: seq<T>, c: seq<T>)
    ensures a + (b + c) == (a + b) + c
  {
  }
}
