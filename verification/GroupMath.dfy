/** Positions cut into groups of `ratio`: the arithmetic the compressed index is addressed with. */
module GroupMath {
  import opened Basics

  /** Complete groups in `n` positions. */
  function Groups(n: nat, ratio: Pos): nat
  {
    n / ratio
  }

  /** First position of group `g`. */
  function Base(g: nat, ratio: nat): nat { g * ratio }

  /** First position of the group that `n` positions leave open. */
  function OpenStart(n: nat, ratio: Pos): nat
  {
    n - n % ratio
  }

  /** Ring index of position `p` in slot `slot`. */
  function RingLoc(slot: nat, p: nat, ratio: Pos): nat
  {
    slot * ratio + p % ratio
  }

  lemma {:induction false} BaseAscends(g: nat, h: nat, ratio: nat)
    ensures g < h ==> Base(g, ratio) + ratio <= Base(h, ratio)
    ensures g <= h ==> Base(g, ratio) <= Base(h, ratio)
    ensures Base(g + 1, ratio) == Base(g, ratio) + ratio
  {
    if g < h { Monotone(g + 1, h, ratio); }
  }

  lemma {:induction false} GroupInside(g: nat, n: nat, ratio: Pos)
    ensures g < Groups(n, ratio) <==> Base(g, ratio) + ratio <= n
    ensures g <= Groups(n, ratio) <==> Base(g, ratio) <= n
  {
    var q := n / ratio;
    assert n == q * ratio + n % ratio;
    if g < q {
      Monotone(g + 1, q, ratio);
    } else {
      Monotone(q, g, ratio);
      if q < g { Monotone(q + 1, g, ratio); }
    }
  }

  lemma {:induction false} OpenIsBase(n: nat, ratio: Pos)
    ensures OpenStart(n, ratio) == Base(Groups(n, ratio), ratio) <= n < OpenStart(n, ratio) + ratio
  {
  }

  lemma {:induction false} GroupsAscend(a: nat, b: nat, ratio: Pos)
    ensures a <= b ==> Groups(a, ratio) <= Groups(b, ratio) && OpenStart(a, ratio) <= OpenStart(b, ratio)
  {
    if a <= b {
      GroupInside(Groups(a, ratio), b, ratio);
      GroupInside(Groups(a, ratio), a, ratio);
      OpenIsBase(a, ratio);
      OpenIsBase(b, ratio);
      BaseAscends(Groups(a, ratio), Groups(b, ratio), ratio);
    }
  }

  lemma {:induction false} GroupsOfBase(g: nat, ratio: Pos)
    ensures Groups(Base(g, ratio), ratio) == g && OpenStart(Base(g, ratio), ratio) == Base(g, ratio)
  {
    var n := Base(g, ratio);
    GroupInside(g, n, ratio);
    GroupInside(Groups(n, ratio), n, ratio);
    OpenIsBase(n, ratio);
  }

  lemma {:induction false} OpenMod(p: nat, stop: nat, ratio: Pos)
    requires OpenStart(stop, ratio) <= p < stop
    ensures p % ratio == p - OpenStart(stop, ratio) && OpenStart(p, ratio) == OpenStart(stop, ratio)
  {
    var q := Groups(stop, ratio);
    OpenIsBase(stop, ratio);
    OpenIsBase(p, ratio);
    GroupInside(q, p, ratio);
    GroupInside(q + 1, p, ratio);
    BaseAscends(q, q + 1, ratio);
  }

  /** Two positions of one open group have different ring places; all are inside their slot. */
  lemma {:induction false} RingApart(slot: nat, p: nat, q: nat, stop: nat, ratio: Pos)
    requires OpenStart(stop, ratio) <= p < stop && OpenStart(stop, ratio) <= q < stop
    ensures p != q ==> RingLoc(slot, p, ratio) != RingLoc(slot, q, ratio)
  {
    OpenMod(p, stop, ratio);
    OpenMod(q, stop, ratio);
  }

  lemma {:induction false} RingInSlot(slot: nat, p: nat, ratio: Pos)
    ensures Base(slot, ratio) <= RingLoc(slot, p, ratio) < Base(slot, ratio) + ratio
  {
  }

  /** A position that is open at `stop` but older than `start` was open at `start`. */
  lemma {:induction false} StillOpen(start: nat, stop: nat, p: nat, ratio: Pos)
    requires OpenStart(stop, ratio) <= p < start <= stop
    ensures OpenStart(start, ratio) <= p
  {
    if start < stop {
      OpenMod(start, stop, ratio);
    }
  }

  lemma {:induction false} PageInside(p: nat, n: nat, ratio: Pos)
    requires p < Base(n, ratio)
    ensures Groups(p, ratio) < n
  {
    GroupInside(n, p, ratio);
  }

  lemma {:induction false} DivBack(q: nat, r: nat, ratio: Pos)
    ensures r < ratio ==> (Base(q, ratio) + r) / ratio == q && (Base(q, ratio) + r) % ratio == r
  {
    if r < ratio {
      GroupInside(q, Base(q, ratio) + r, ratio);
      GroupInside(q + 1, Base(q, ratio) + r, ratio);
      BaseAscends(q, q + 1, ratio);
      OpenIsBase(Base(q, ratio) + r, ratio);
    }
  }
}
