/** The position-weighted sample hash of a bank, over its parts in order. */
module BankChecksum {
  import opened Basics

  const WEIGHT_MOD: int := 1_000_000_007
  const SAMPLES: int := 1_000_000

  function Weight(pos: nat): (w: int)
    ensures 1 <= w <= WEIGHT_MOD
  {
    pos % WEIGHT_MOD + 1
  }

  function Term(b: Byte, pos: nat): (t: int)
    ensures 0 <= t <= 255 * WEIGHT_MOD
  {
    Scaled(b, Weight(pos));
    b * Weight(pos)
  }

  lemma {:induction false} Scaled(b: int, w: int)
    requires 0 <= b <= 255 && 0 <= w <= WEIGHT_MOD
    ensures 0 <= b * w <= 255 * WEIGHT_MOD
  {
    assert (255 - b) * w >= 0 && 255 * (WEIGHT_MOD - w) >= 0 && b * w >= 0;
  }

  /** The weighted bytes at `pos`, `pos + step`, and so on. */
  function Strided(all: seq<Byte>, step: Pos, pos: nat): int
    decreases |all| - pos
  {
    if pos >= |all| then 0 else Term(all[pos], pos) + Strided(all, step, pos + step)
  }

  function Step(total: nat): (step: Pos)
  {
    if total / SAMPLES < 1 then 1 else total / SAMPLES
  }

  /** The hash of a whole bank. */
  function Hash(all: seq<Byte>): int { Strided(all, Step(|all|), 0) }

  // ----- How many samples, and how large -----

  /** Sampled positions from `pos` on. */
  function Samples(total: nat, step: Pos, pos: nat): (n: nat)
    decreases total - pos
  {
    if pos >= total then 0 else 1 + Samples(total, step, pos + step)
  }

  lemma {:induction false} SamplesFit(total: nat, step: Pos, pos: nat)
    ensures pos < total ==> Times(Samples(total, step, pos), step) < total - pos + step
    ensures pos >= total ==> Samples(total, step, pos) == 0
    decreases total - pos
  {
    TimesNext(0, step);
    if pos < total {
      SamplesFit(total, step, pos + step);
      TimesNext(Samples(total, step, pos + step), step);
    }
  }

  /** Fewer than two million bytes of a bank are sampled, whatever its size. */
  lemma {:induction false} FewSamples(total: nat)
    ensures Samples(total, Step(total), 0) < 2 * SAMPLES
  {
    var step := Step(total);
    SamplesFit(total, step, 0);
    var n := Samples(total, step, 0);
    assert Times(2 * SAMPLES, step) == 2 * SAMPLES * step;
    assert total < SAMPLES * step + SAMPLES;
    if n >= 2 * SAMPLES {
      Monotone(2 * SAMPLES, n, step);
    }
  }

  lemma {:induction false} SamplesReach(total: nat, step: Pos, pos: nat)
    ensures total <= pos + Times(Samples(total, step, pos), step)
    decreases total - pos
  {
    TimesNext(0, step);
    if pos < total {
      SamplesReach(total, step, pos + step);
      TimesNext(Samples(total, step, pos + step), step);
    }
  }

  lemma {:induction false} AllSampled(total: nat, pos: nat)
    requires pos <= total
    ensures Samples(total, 1, pos) == total - pos
    decreases total - pos
  {
    if pos < total { AllSampled(total, pos + 1); }
  }

  /** Every byte of a bank below two million is sampled, and a million bytes or more of a larger one. */
  lemma {:induction false} EnoughSamples(total: nat)
    ensures total < 2_000_000 ==> Samples(total, Step(total), 0) == total
    ensures total >= 2_000_000 ==> 1_000_000 <= Samples(total, Step(total), 0)
  {
    var step := Step(total);
    var n := Samples(total, step, 0);
    SamplesReach(total, step, 0);
    if step == 1 {
      AllSampled(total, 0);
    } else if n < SAMPLES {
      Monotone(n + 1, SAMPLES, step);
      TimesNext(n, step);
    }
  }

  /** Sixty-four bit two's complement. */
  function Wrap64(x: int): (r: int)
    ensures -0x8000_0000_0000_0000 <= r < 0x8000_0000_0000_0000
    ensures (x - r) % 0x1_0000_0000_0000_0000 == 0
  {
    var m := x % 0x1_0000_0000_0000_0000;
    if m < 0x8000_0000_0000_0000 then m else m - 0x1_0000_0000_0000_0000
  }

  /** The samples of one part that begins at `offset`, from its position `at` on. */
  function PartSum(part: seq<Byte>, offset: nat, step: Pos, at: nat): (h: int)
    decreases |part| - at
  {
    if at >= |part| then 0 else Term(part[at], offset + at) + PartSum(part, offset, step, at + step)
  }

  lemma {:induction false} PartBounded(part: seq<Byte>, offset: nat, step: Pos, at: nat)
    ensures 0 <= PartSum(part, offset, step, at) <= Times(Samples(|part|, step, at), 255 * WEIGHT_MOD)
    decreases |part| - at
  {
    TimesNext(0, 255 * WEIGHT_MOD);
    if at < |part| {
      PartBounded(part, offset, step, at + step);
      TimesNext(Samples(|part|, step, at + step), 255 * WEIGHT_MOD);
    }
  }

  lemma {:induction false} SamplesMonotone(a: nat, b: nat, step: Pos, p: nat, q: nat)
    requires q <= p && a - p <= b - q
    ensures Samples(a, step, p) <= Samples(b, step, q)
    decreases a - p
  {
    if p < a { SamplesMonotone(a, b, step, p + step, q + step); }
  }

  /** No part's sum reaches the top of a 64-bit integer, so the sixty-four bit sum is exact. */
  lemma {:induction false} PartFits(part: seq<Byte>, offset: nat, total: nat, at: nat)
    requires |part| <= total
    ensures 0 <= PartSum(part, offset, Step(total), at) < 0x8000_0000_0000_0000
    ensures Wrap64(PartSum(part, offset, Step(total), at)) == PartSum(part, offset, Step(total), at)
  {
    var step := Step(total);
    PartBounded(part, offset, step, at);
    SamplesMonotone(|part|, total, step, at, 0);
    FewSamples(total);
    Monotone(Samples(|part|, step, at), 2 * SAMPLES, 255 * WEIGHT_MOD);
  }

  // ----- Parts -----

  /** The first sampled position not before `offset`. */
  function NextSample(offset: nat, step: Pos): (p: nat)
    ensures offset <= p < offset + step
  {
    offset + (-(offset as int)) % step
  }

  lemma {:induction false} NextIsMultiple(offset: nat, step: Pos)
    ensures NextSample(offset, step) % step == 0
  {
    var q := (-(offset as int)) / step;
    assert -(offset as int) == q * step + (-(offset as int)) % step;
    assert NextSample(offset, step) == Times(-q, step) + 0;
    Division(-q, 0, step);
  }

  /** There is one sampled position in each stretch of `step` positions. */
  lemma {:induction false} NextIsOnly(offset: nat, step: Pos, p: int)
    requires offset <= p < offset + step && p % step == 0
    ensures p == NextSample(offset, step)
  {
    NextIsMultiple(offset, step);
    var d := p / step - NextSample(offset, step) / step;
    assert Times(d, step) == p - NextSample(offset, step);
    FarMultiple(d, step);
  }

  lemma {:induction false} StepKeepsModulus(p: int, step: Pos)
    ensures p % step == 0 ==> (p + step) % step == 0
  {
    if p % step == 0 {
      assert p == Times(p / step, step);
      TimesNext(p / step, step);
      Division(p / step + 1, 0, step);
    }
  }

  /** The samples from `p` on are those in the part, then those from the next part on. */
  lemma {:induction false} PartThenRest(all: seq<Byte>, part: seq<Byte>, offset: nat, step: Pos, p: nat)
    requires 0 <= offset <= p && p % step == 0
    requires offset + |part| <= |all| && part == all[offset..offset + |part|]
    requires p < offset + |part| || p == NextSample(offset + |part|, step)
    ensures PartSum(part, offset, step, p - offset) + Strided(all, step,
        NextSample(offset + |part|, step)) == Strided(all, step, p)
    decreases |all| + step - p
  {
    var end := offset + |part|;
    if p < end {
      StepKeepsModulus(p, step);
      if p + step >= end { NextIsOnly(end, step, p + step); }
      PartThenRest(all, part, offset, step, p + step);
    }
  }

  lemma {:induction false} ConcatStep(parts: seq<seq<Byte>>, i: nat)
    requires i < |parts|
    ensures var before, all := Concat(parts[..i]), Concat(parts);
            && |before| + |parts[i]| == |Concat(parts[..i + 1])| <= |all|
            && all[|before|..|before| + |parts[i]|] == parts[i]
    ensures parts[..|parts|] == parts
  {
    assert parts[..i + 1][..i] == parts[..i];
    if i + 1 == |parts| {
      assert parts[..i + 1] == parts;
    } else {
      var n := |parts| - 1;
      ConcatStep(parts[..n], i);
      assert parts[..n][..i] == parts[..i] && parts[..n][..i + 1] == parts[..i + 1];
    }
  }

  /** The hash of a bank given in parts is the hash of the bytes they make up, in any grouping. */
  method Checksum(parts: seq<seq<Byte>>) returns (h: int)
    ensures h == Hash(Concat(parts))
  {
    var total := 0;
    for i := 0 to |parts|
      invariant total == |Concat(parts[..i])|
    {
      ConcatStep(parts, i);
      total := total + |parts[i]|;
    }
    assert parts[..0] == [] && parts[..|parts|] == parts;
    var step := Step(total);
    ghost var all := Concat(parts);
    var offset := 0;
    h := 0;
    Division(0, 0, step);
    NextIsOnly(0, step, 0);
    assert Strided(all, step, NextSample(0, step)) == Hash(all);
    hide *;
    for i := 0 to |parts|
      invariant offset == |Concat(parts[..i])| <= |all| == total
      invariant h + Strided(all, step, NextSample(offset, step)) == Hash(all)
    {
      ConcatStep(parts, i);
      var part := parts[i];
      var first := (-(offset as int)) % step;
      PartStep(all, part, offset, step);
      if first < |part| {
        PartFits(part, offset, total, first);
        var sum := SumSamples(part, offset, step, first);
        h := h + sum;
      }
      offset := offset + |part|;
    }
    PastEnd(all, step, NextSample(offset, step));
  }

  lemma {:induction false} PastEnd(all: seq<Byte>, step: Pos, pos: nat)
    requires |all| <= pos
    ensures Strided(all, step, pos) == 0
  {
  }

  /** What one part adds: the samples from its first one on, if it has any. */
  lemma {:induction false} PartStep(all: seq<Byte>, part: seq<Byte>, offset: nat, step: Pos)
    requires offset + |part| <= |all| && part == all[offset..offset + |part|]
    ensures var first := (-(offset as int)) % step;
            0 <= first && (if first < |part| then PartSum(part, offset, step, first)
                else 0) + Strided(all, step, NextSample(offset + |part|, step))
            == Strided(all, step, NextSample(offset, step))
  {
    var p := NextSample(offset, step);
    NextIsMultiple(offset, step);
    if p < offset + |part| {
      PartThenRest(all, part, offset, step, p);
    } else {
      NextIsOnly(offset + |part|, step, p);
    }
  }

  /** The sixty-four bit sum over one part's samples. */
  method SumSamples(part: seq<Byte>, offset: nat, step: Pos, first: nat) returns (sum: int)
    ensures sum == Wrap64(PartSum(part, offset, step, first))
  {
    sum := 0;
    var at := first;
    while at < |part|
      invariant first <= at
      invariant Wrap64(sum + PartSum(part, offset, step, at)) == Wrap64(PartSum(part, offset, step, first))
      invariant sum == Wrap64(sum)
      decreases |part| - at
    {
      var term := part[at] * ((offset + at) % WEIGHT_MOD + 1);
      assert term == Term(part[at], offset + at);
      WrapAdds(sum + term, PartSum(part, offset, step, at + step));
      WrapTwice(sum + term);
      sum := Wrap64(sum + term);
      at := at + step;
    }
  }

  lemma {:induction false} WrapTwice(x: int)
    ensures Wrap64(Wrap64(x)) == Wrap64(x)
  {
  }

  lemma {:induction false} WrapAdds(x: int, y: int)
    ensures Wrap64(Wrap64(x) + y) == Wrap64(x + y)
  {
  }

  // ----- What the hash sees -----

  /** A change of one byte shows exactly when the byte is sampled. */
  lemma {:induction false} OneByte(all: seq<Byte>, step: Pos, pos: nat, i: nat, b: Byte)
    requires pos % step == 0 && i < |all|
    ensures Strided(all[i := b], step, pos) - Strided(all, step, pos) ==
      if pos <= i && i % step == 0 then Term(b, i) - Term(all[i], i) else 0
    decreases |all| - pos
  {
    if pos < |all| {
      StepKeepsModulus(pos, step);
      OneByte(all, step, pos + step, i, b);
      if pos < i < pos + step && i % step == 0 {
        NextIsOnly(i, step, i);
        NextIsOnly(pos + 1, step, pos + step);
        NextIsOnly(pos + 1, step, i);
      }
    }
  }

  lemma {:induction false} TermChange(b: Byte, c: Byte, i: nat)
    ensures Term(c, i) - Term(b, i) == Times(c - b, Weight(i))
    ensures Times(b - c, Weight(i)) == -Times(c - b, Weight(i))
  {
    Distribute(b, c, Weight(i));
  }

  lemma {:induction false} Distribute(b: int, c: int, w: int)
    ensures c * w - b * w == (c - b) * w && (b - c) * w == -((c - b) * w)
  {
  }

  /** `d` weighed at both places cancels exactly when it is nothing or the weights agree. */
  lemma {:induction false} Cancels(d: int, u: int, w: int)
    ensures Times(d, u) == Times(d, w) <==> d == 0 || u == w
    ensures Times(d, u) == 0 <==> d == 0 || u == 0
  {
    assert d * (u - w) == d * u - d * w;
  }

  function Gap(b: Byte, c: Byte): int { (c as int) - (b as int) }

  predicate Sampled(i: nat, step: Pos)
  {
    i % step == 0
  }

  function Swapped(all: seq<Byte>, i: nat, j: nat): (r: seq<Byte>)
    requires i < j < |all|
    ensures |r| == |all|
  {
    all[i := all[j]][j := all[i]]
  }

  lemma {:induction false} SwapChange(all: seq<Byte>, step: Pos, i: nat, j: nat)
    requires i < j < |all|
    ensures Strided(Swapped(all, i, j), step, 0) - Strided(all, step, 0) ==
            (if Sampled(i, step) then Times(Gap(all[i], all[j]), Weight(i)) else 0) -
            (if Sampled(j, step) then Times(Gap(all[i], all[j]), Weight(j)) else 0)
  {
    Division(0, 0, step);
    OneByte(all, step, 0, i, all[j]);
    OneByte(all[i := all[j]], step, 0, j, all[i]);
    TermChange(all[i], all[j], i);
    TermChange(all[i], all[j], j);
  }

  /** Two exchanged bytes go unseen exactly when they are equal, neither is sampled, or both are and
      their positions weigh the same. */
  lemma {:induction false} SwapUnseenIff(all: seq<Byte>, i: nat, j: nat)
    requires i < j < |all|
    ensures var step := Step(|all|);
            Hash(Swapped(all, i, j)) == Hash(all) <==>
            (|| all[i] == all[j]
             || (!Sampled(i, step) && !Sampled(j, step))
             || (Sampled(i, step) && Sampled(j, step) && i % WEIGHT_MOD == j % WEIGHT_MOD))
  {
    SwapChange(all, Step(|all|), i, j);
    var d := Gap(all[i], all[j]);
    Cancels(d, Weight(i), Weight(j));
    Cancels(d, Weight(j), Weight(i));
    hide Strided, Term, Times, Step, Swapped, Sampled;
  }

  // ----- The hash in plain terms -----

  /** The hash is the sum over sampled positions of the byte times the position's weight: it is 0 of zeros, and
      a changed byte at a sampled position changes it by the difference times the weight. */
  lemma {:induction false} HashOneByte(all: seq<Byte>, i: nat, b: Byte)
    requires i < |all|
    ensures var step := if |all| < 1_000_000 then 1 else |all| / 1_000_000;
            Hash(all[i := b]) - Hash(all) ==
                if i % step == 0 then (b - all[i]) * (i % 1_000_000_007 + 1) else 0
  {
    var step := Step(|all|);
    Division(0, 0, step);
    OneByte(all, step, 0, i, b);
    TermChange(all[i], b, i);
  }

  lemma {:induction false} HashOfZeros(all: seq<Byte>)
    requires forall i :: 0 <= i < |all| ==> all[i] == 0
    ensures Hash(all) == 0
  {
    ZerosFrom(all, Step(|all|), 0);
  }

  lemma {:induction false} ZerosFrom(all: seq<Byte>, step: Pos, pos: nat)
    requires forall i :: 0 <= i < |all| ==> all[i] == 0
    ensures Strided(all, step, pos) == 0
    decreases |all| - pos
  {
    if pos < |all| { ZerosFrom(all, step, pos + step); }
  }
}
