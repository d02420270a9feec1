/** Datatypes and arithmetic that several modules share. */
module Basics {

  datatype Option<+T> = None | Some(value: T)

  datatype Result<+T, +E> = Ok(value: T) | Err(error: E)

  function Min(a: nat, b: nat): nat { if a < b then a else b }

  function Max(a: nat, b: nat): nat { if a < b then b else a }

  type Pos = n: nat | 0 < n witness 1

  type Byte = b: int | 0 <= b < 256

  /** The parts end to end. */
  function Concat<T>(parts: seq<seq<T>>): seq<T> {
    if parts == [] then [] else Concat(parts[..|parts| - 1]) + parts[|parts| - 1]
  }

  /** `data` written over `buf` from `at` on. */
  function Spliced<T>(buf: seq<T>, at: nat, data: seq<T>): (r: seq<T>)
    requires at + |data| <= |buf|
    ensures |r| == |buf|
  {
    buf[..at] + data + buf[at + |data|..]
  }

  function Times(n: int, step: int): int { n * step }

  lemma {:induction false} TimesNext(n: int, step: int)
    ensures Times(n + 1, step) == Times(n, step) + step && Times(0, step) == 0
  {
  }

  lemma {:induction false} Monotone(a: int, b: int, c: nat)
    requires a <= b
    ensures a * c <= b * c
    decreases b - a
  {
    if a < b { Monotone(a, b - 1, c); }
  }

  lemma {:induction false} FarMultiple(d: int, step: Pos)
    ensures d >= 1 ==> Times(d, step) >= step
    ensures d <= -1 ==> Times(d, step) <= -(step as int)
  {
    if d >= 1 { Monotone(1, d, step); }
    if d <= -1 { Monotone(d, -1, step); }
  }

  /** A quotient and a remainder in range are the quotient and the remainder. */
  lemma {:induction false} Division(q: int, r: int, step: int)
    requires 0 <= r < step
    ensures (Times(q, step) + r) / step == q && (Times(q, step) + r) % step == r
  {
    var x := Times(q, step) + r;
    var d := x / step - q;
    assert Times(d, step) == (x / step) * step - q * step;
    FarMultiple(d, step);
  }
}
