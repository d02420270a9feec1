/** The compressor's carries at page boundaries, in the ring block of each window page. */
module BoundaryCarry {
  import opened Basics
  import opened GroupMath

  /** A token's compressor input, or a row of a carry block. */
  datatype Row<K, S> = Row(kv: K, score: S)

  datatype Conf<!K, !S> = Conf(page: Pos, ratio: nat, rows: nat, overlap: bool, zero: K, floor: S, bias: (S, nat) -> S)

  /** Pages hold whole groups' tails, blocks have room for one group. */
  predicate Good<K, S>(c: Conf<K, S>) {
    c.ratio <= c.page && c.ratio <= c.rows
  }

  /** The carry at boundary `b`: with overlap the last group before it, its scores biased by place;
      without, and in the rows left over, the reset state. */
  function Carry<K, S>(c: Conf<K, S>, hist: seq<Row<K, S>>, b: nat): (r: seq<Row<K, S>>)
    requires Good(c) && c.page <= b <= |hist|
    ensures |r| == c.rows
  {
    seq(c.rows, i requires 0 <= i < c.rows =>
      if c.overlap && i < c.ratio then Row(hist[b - c.ratio + i].kv, c.bias(hist[b - c.ratio + i].score, i))
          else Row(c.zero, c.floor))
  }

  predicate Aligned(n: nat, page: Pos)
  {
    n % page == 0
  }

  /** First ring row of the page that holds window slot `slot`. */
  function BlockBase(slot: nat, page: Pos, rows: nat): nat
  {
    Base(Groups(slot, page), rows)
  }

  function Block<T>(ring: seq<T>, base: nat, rows: nat): seq<T>
    requires base + rows <= |ring|
  {
    ring[base..base + rows]
  }

  /** Window slots of the positions, each with a block in the ring. */
  predicate Slotted<K, S>(c: Conf<K, S>, slots: seq<nat>, n: nat) {
    Good(c) && forall p :: 0 <= p < |slots| ==> BlockBase(slots[p], c.page, c.rows) + c.rows <= n
  }

  /** The window slot of the last token before page boundary `k`. */
  function SlotAt(slots: seq<nat>, k: nat, page: Pos): nat
    requires 0 < k && 0 < Base(k, page) <= |slots|
  {
    slots[Base(k, page) - 1]
  }

  predicate InHistory<K, S>(c: Conf<K, S>, hist: seq<Row<K, S>>, slots: seq<nat>, k: nat)
  {
    Base(k, c.page) <= |hist| == |slots|
  }

  /** The ring after the boundaries of pages `first` (not included) to `last` are written from the
      whole history. */
  function Written<K, S>(c: Conf<K, S>, ring: seq<Row<K, S>>, hist: seq<Row<K, S>>, slots: seq<nat>, first: nat,
        last: nat): (r: seq<Row<K, S>>)
    requires Slotted(c, slots, |ring|) && InHistory(c, hist, slots, last)
    ensures |r| == |ring|
    decreases last
  {
    if last <= first then ring else
      BaseAscends(last - 1, last, c.page);
      BaseAscends(0, last, c.page);
      Spliced(Written(c, ring, hist, slots, first, last - 1), BlockOf(c, slots, last),
          Carry(c, hist, Base(last, c.page)))
  }

  /** First ring row of the block of page boundary `k`. */
  function BlockOf<K, S>(c: Conf<K, S>, slots: seq<nat>, k: nat): nat
    requires 0 < k && 0 < Base(k, c.page) <= |slots|
  {
    BlockBase(SlotAt(slots, k, c.page), c.page, c.rows)
  }

  class CarryRing<K, S> {
    const buffer: array<Row<K, S>>

    constructor (buffer: array<Row<K, S>>)
      ensures this.buffer == buffer
    {
      this.buffer := buffer;
    }

    method WriteCarry(c: Conf<K, S>, slot: nat, block: seq<Row<K, S>>)
      requires Good(c) && |block| == c.rows && BlockBase(slot, c.page, c.rows) + c.rows <= buffer.Length
      modifies buffer
      ensures buffer[..] == Spliced(old(buffer[..]), BlockBase(slot, c.page, c.rows), block)
    {
      var base := BlockBase(slot, c.page, c.rows);
      PutEnds(buffer[..], base, block);
      hide BlockBase, Spliced;
      for i := 0 to c.rows
        invariant buffer[..] == Spliced(old(buffer[..]), base, block[..i])
      {
        PutNext(old(buffer[..]), base, block, i);
        buffer[base + i] := block[i];
      }
    }

    /** Reads the block of a window slot. After any spans, the slot before page boundary `k` gives the carry
        of the last boundary in that slot's window page: boundary `k`'s own until the page is reused. */
    method ReadCarry(c: Conf<K, S>, slot: nat, ghost was: seq<Row<K, S>>, ghost hist: seq<Row<K, S>>,
        ghost slots: seq<nat>, ghost cuts: seq<nat>, ghost k: nat) returns (block: seq<Row<K, S>>)
      requires Slotted(c, slots, buffer.Length) && |was| == buffer.Length && |hist| == |slots| && Cuts(c, cuts, |hist|)
      requires buffer[..] == Chained(c, was, hist, slots, cuts)
      requires 0 < k <= Groups(cuts[|cuts| - 1], c.page) && EndsIn(c, slots, k) && slot == SlotAt(slots, k, c.page)
      ensures InHistory(c, hist, slots, Groups(cuts[|cuts| - 1], c.page))
      ensures var j := Newest(c, slots, k, Groups(cuts[|cuts| - 1], c.page));
              c.page <= Base(j, c.page) <= |hist| && block == Carry(c, hist, Base(j, c.page))
      ensures var j := Newest(c, slots, k, Groups(cuts[|cuts| - 1], c.page));
              && |block| == c.rows && j * c.page <= |hist| && c.ratio <= j * c.page
              && forall i :: 0 <= i < c.rows ==>
                  if c.overlap && i < c.ratio
                  then block[i].kv == hist[j * c.page - c.ratio + i].kv &&
                       block[i].score == c.bias(hist[j * c.page - c.ratio + i].score, i)
                  else block[i] == Row(c.zero, c.floor)
    {
      ResumeReads(c, was, hist, slots, cuts, k);
      var base := BlockBase(slot, c.page, c.rows);
      block := buffer[base..base + c.rows];
    }

    /** Writes the carry of the next boundary, `b`, of the span. */
    method WriteBoundary(c: Conf<K, S>, lo: nat, hi: nat, b: nat, kv: seq<Row<K, S>>, window: seq<nat>,
                         ghost hist: seq<Row<K, S>>, ghost slots: seq<nat>, ghost was: seq<Row<K, S>>, ghost k: nat)
      requires Slotted(c, slots, buffer.Length) && |was| == buffer.Length && lo <= hi <= |hist| == |slots| &&
          Good(c) && Aligned(lo, c.page)
      requires kv == hist[lo..hi] && window == slots[lo..hi]
      requires Groups(lo, c.page) <= k && b == Base(k + 1, c.page) <= hi && InHistory(c, hist, slots, k)
      requires buffer[..] == Written(c, was, hist, slots, Groups(lo, c.page), k)
      modifies buffer
      ensures k + 1 <= Groups(hi, c.page) && Base(k + 2, c.page) == b + c.page && InHistory(c, hist, slots, k + 1)
      ensures buffer[..] == Written(c, was, hist, slots, Groups(lo, c.page), k + 1)
    {
      hide *;
      BoundaryStep(c, was, hist, slots, lo, hi, k);
      var block := BuildCarry(c, kv, b - lo);
      var slot := window[b - 1 - lo];
      WriteCarry(c, slot, block);
    }

    /** Writes the carry of every page boundary in the span, from the span's own rows. `hist` and
        `slots` are the whole sequence, of which the span is `lo..hi`. */
    method WriteBoundaries(c: Conf<K, S>, lo: nat, hi: nat, kv: seq<Row<K, S>>, window: seq<nat>,
          ghost hist: seq<Row<K, S>>, ghost slots: seq<nat>)
      requires Slotted(c, slots, buffer.Length) && |hist| == |slots|
      requires lo <= hi <= |hist| && kv == hist[lo..hi] && window == slots[lo..hi]
      requires Good(c) && Aligned(lo, c.page)
      modifies buffer
      ensures InHistory(c, hist, slots, Groups(hi, c.page))
      ensures buffer[..] == Written(c, old(buffer[..]), hist, slots, Groups(lo, c.page), Groups(hi, c.page))
    {
      ghost var was := buffer[..];
      ghost var first, last := Groups(lo, c.page), Groups(hi, c.page);
      hide *;
      SpanStarts(c, was, hist, slots, lo, hi);
      var b := Base(Groups(lo, c.page) + 1, c.page);
      ghost var k := first;
      while b <= hi
        invariant first <= k <= last && b == Base(k + 1, c.page)
        invariant InHistory(c, hist, slots, k)
        invariant buffer[..] == Written(c, was, hist, slots, first, k)
        decreases hi + c.page - b
      {
        WriteBoundary(c, lo, hi, b, kv, window, hist, slots, was, k);
        k := k + 1;
        b := b + c.page;
      }
      SpanEnds(k, hi, c.page);
    }
  }

  lemma {:induction false} SpanStarts<K, S>(c: Conf<K, S>, ring: seq<Row<K, S>>, hist: seq<Row<K, S>>,
        slots: seq<nat>, lo: nat, hi: nat)
    requires Slotted(c, slots, |ring|) && lo <= hi <= |hist| == |slots| && Good(c)
    ensures var first := Groups(lo, c.page);
            && first <= Groups(hi, c.page) && InHistory(c, hist, slots, first) &&
                Written(c, ring, hist, slots, first, first) == ring
  {
    OpenIsBase(lo, c.page);
    GroupsAscend(lo, hi, c.page);
    WrittenNone(c, ring, hist, slots, Groups(lo, c.page));
  }

  lemma {:induction false} SpanEnds(k: nat, hi: nat, page: Pos)
    requires k <= Groups(hi, page) && hi < Base(k + 1, page)
    ensures k == Groups(hi, page)
  {
    GroupInside(k, hi, page);
    BaseAscends(k, k + 1, page);
  }

  /** All that writing the next boundary of a span needs and brings. */
  lemma {:induction false} BoundaryStep<K, S>(c: Conf<K, S>, ring: seq<Row<K, S>>, hist: seq<Row<K, S>>,
        slots: seq<nat>, lo: nat, hi: nat, k: nat)
    requires Slotted(c, slots, |ring|) && lo <= hi <= |hist| == |slots| && Good(c) && Aligned(lo, c.page)
    requires Groups(lo, c.page) <= k && Base(k + 1, c.page) <= hi
    ensures var b := Base(k + 1, c.page);
            && k + 1 <= Groups(hi, c.page) && lo + c.page <= b && Base(k + 2, c.page) == b + c.page
            && InHistory(c, hist, slots, k) && InHistory(c, hist, slots, k + 1)
            && Good(c) && BlockBase(slots[b - 1], c.page, c.rows) + c.rows <= |ring|
            && slots[lo..hi][b - 1 - lo] == slots[b - 1]
            && Carry(c, hist[lo..hi], b - lo) == Carry(c, hist, b)
            && Written(c, ring, hist, slots, Groups(lo, c.page), k + 1) ==
               Spliced(Written(c, ring, hist, slots, Groups(lo, c.page), k), BlockBase(slots[b - 1], c.page, c.rows),
                   Carry(c, hist, b))
  {
    var first := Groups(lo, c.page);
    OpenIsBase(lo, c.page);
    BaseAscends(first, k + 1, c.page);
    BaseAscends(k + 1, k + 2, c.page);
    GroupInside(k, hi, c.page);
    BaseAscends(k, k + 1, c.page);
    SpanCarry(c, hist, lo, hi, Base(k + 1, c.page));
    WrittenNext(c, ring, hist, slots, first, k);
  }

  lemma {:induction false} PutNext<T>(ring: seq<T>, base: nat, block: seq<T>, i: nat)
    requires base + |block| <= |ring| && i < |block|
    ensures Spliced(ring, base, block[..i])[base + i := block[i]] == Spliced(ring, base, block[..i + 1])
  {
  }

  lemma {:induction false} PutEnds<T>(ring: seq<T>, base: nat, block: seq<T>)
    requires base + |block| <= |ring|
    ensures Spliced(ring, base, block[..0]) == ring && block[..|block|] == block
  {
  }

  /** The carry block at offset `at` of a span. */
  method BuildCarry<K, S>(c: Conf<K, S>, kv: seq<Row<K, S>>, at: nat) returns (block: seq<Row<K, S>>)
    requires Good(c) && c.page <= at <= |kv|
    ensures block == Carry(c, kv, at)
  {
    block := seq(c.rows, i requires 0 <= i < c.rows => Row(c.zero, c.floor));
    if c.overlap {
      var tail := kv[at - c.ratio..at];
      block := seq(c.ratio, i requires 0 <= i < c.ratio => Row(tail[i].kv,
          c.bias(tail[i].score, i))) + block[c.ratio..];
    }
  }

  /** The carry depends on its position only, not on where the span began. */
  lemma {:induction false} SpanCarry<K, S>(c: Conf<K, S>, hist: seq<Row<K, S>>, lo: nat, hi: nat, b: nat)
    requires Good(c) && lo + c.page <= b <= hi <= |hist|
    ensures Carry(c, hist[lo..hi], b - lo) == Carry(c, hist, b)
  {
  }

  lemma {:induction false} WrittenNone<K, S>(c: Conf<K, S>, ring: seq<Row<K, S>>, hist: seq<Row<K, S>>,
        slots: seq<nat>, k: nat)
    requires Slotted(c, slots, |ring|) && InHistory(c, hist, slots, k)
    ensures Written(c, ring, hist, slots, k, k) == ring
  {
  }

  lemma {:induction false} WrittenNext<K, S>(c: Conf<K, S>, ring: seq<Row<K, S>>, hist: seq<Row<K, S>>,
        slots: seq<nat>, first: nat, k: nat)
    requires Slotted(c, slots, |ring|) && InHistory(c, hist, slots, k + 1) && first <= k
    ensures InHistory(c, hist, slots, k) && 0 < c.page <= Base(k + 1, c.page) <= |hist|
    ensures Written(c, ring, hist, slots, first, k + 1) ==
            Spliced(Written(c, ring, hist, slots, first, k),
                BlockBase(slots[Base(k + 1, c.page) - 1], c.page, c.rows), Carry(c, hist, Base(k + 1, c.page)))
  {
    BaseAscends(k, k + 1, c.page);
    BaseAscends(0, k + 1, c.page);
  }

  // ----- Splits -----

  lemma {:induction false} WrittenSplit<K, S>(c: Conf<K, S>, ring: seq<Row<K, S>>, hist: seq<Row<K, S>>,
        slots: seq<nat>, a: nat, b: nat, d: nat)
    requires Slotted(c, slots, |ring|) && InHistory(c, hist, slots, d) && a <= b <= d
    ensures InHistory(c, hist, slots, b)
    ensures Written(c, Written(c, ring, hist, slots, a, b), hist, slots, b, d) == Written(c, ring, hist, slots, a, d)
    decreases d
  {
    BaseAscends(b, d, c.page);
    if b < d {
      BaseAscends(d - 1, d, c.page);
      WrittenSplit(c, ring, hist, slots, a, b, d - 1);
    }
  }

  /** Consecutive spans of the sequence, each cut at a page boundary. */
  ghost predicate Cuts<K, S>(c: Conf<K, S>, cuts: seq<nat>, n: nat)
  {
    |cuts| > 0 && cuts[0] == 0 && cuts[|cuts| - 1] <= n &&
    (forall i :: 0 <= i < |cuts| - 1 ==> Aligned(cuts[i], c.page)) &&
    (forall i, j :: 0 <= i < j < |cuts| ==> cuts[i] <= cuts[j])
  }

  /** The ring after each span in turn is written. */
  ghost function Chained<K, S>(c: Conf<K, S>, ring: seq<Row<K, S>>, hist: seq<Row<K, S>>, slots: seq<nat>,
        cuts: seq<nat>): (r: seq<Row<K, S>>)
    requires Slotted(c, slots, |ring|) && |hist| == |slots| && Cuts(c, cuts, |hist|)
    ensures |r| == |ring|
    decreases |cuts|
  {
    var n := |cuts| - 1;
    if n == 0 then ring else
      OpenIsBase(cuts[n], c.page);
      Written(c, Chained(c, ring, hist, slots, cuts[..n]), hist, slots, Groups(cuts[n - 1], c.page),
          Groups(cuts[n], c.page))
  }

  /** Any split of a sequence into page-aligned spans leaves the ring a single pass leaves. */
  lemma {:induction false} SplitIsOnePass<K, S>(
        c: Conf<K, S>, ring: seq<Row<K, S>>, hist: seq<Row<K, S>>, slots: seq<nat>, cuts: seq<nat>)
    requires Slotted(c, slots, |ring|) && |hist| == |slots| && Cuts(c, cuts, |hist|)
    ensures InHistory(c, hist, slots, Groups(cuts[|cuts| - 1], c.page))
    ensures Chained(c, ring, hist, slots, cuts) == Written(c, ring, hist, slots, 0, Groups(cuts[|cuts| - 1], c.page))
    decreases |cuts|
  {
    var n := |cuts| - 1;
    OpenIsBase(cuts[n], c.page);
    if n == 0 {
      GroupsOfBase(0, c.page);
    } else {
      SplitIsOnePass(c, ring, hist, slots, cuts[..n]);
      assert cuts[..n][n - 1] == cuts[n - 1];
      GroupsAscend(cuts[n - 1], cuts[n], c.page);
      WrittenSplit(c, ring, hist, slots, 0, Groups(cuts[n - 1], c.page), Groups(cuts[n], c.page));
    }
  }

  // ----- What the ring holds -----

  /** The boundary is inside the sequence. */
  predicate EndsIn<K, S>(c: Conf<K, S>, slots: seq<nat>, k: nat)
  {
    0 < Base(k, c.page) <= |slots|
  }

  /** The window page that boundary `k` ends in. */
  function WindowPage<K, S>(c: Conf<K, S>, slots: seq<nat>, k: nat): nat
    requires 0 < k && EndsIn(c, slots, k)
  {
    Groups(SlotAt(slots, k, c.page), c.page)
  }

  /** The last boundary up to `last` that ends in the window page of boundary `k`. */
  function Newest<K, S>(c: Conf<K, S>, slots: seq<nat>, k: nat, last: nat): (j: nat)
    requires 0 < k <= last && Base(last, c.page) <= |slots|
    ensures k <= j <= last && EndsIn(c, slots, k) && EndsIn(c, slots, j)
    ensures WindowPage(c, slots, j) == WindowPage(c, slots, k)
    ensures forall i :: j < i <= last ==> EndsIn(c, slots, i) && WindowPage(c, slots, i) != WindowPage(c, slots, k)
    decreases last
  {
    BaseAscends(0, k, c.page);
    BaseAscends(k, last, c.page);
    BaseAscends(last - 1, last, c.page);
    if last == k || WindowPage(c, slots, last) == WindowPage(c, slots, k) then last
    else Newest(c, slots, k, last - 1)
  }

  /** Blocks of distinct window pages do not meet. */
  lemma {:induction false} BlocksApart(a: nat, b: nat, page: Pos, rows: nat)
    requires Groups(a, page) != Groups(b, page)
    ensures BlockBase(a, page, rows) + rows <= BlockBase(b, page, rows) ||
        BlockBase(b, page, rows) + rows <= BlockBase(a, page, rows)
  {
    BaseAscends(Groups(a, page), Groups(b, page), rows);
    BaseAscends(Groups(b, page), Groups(a, page), rows);
  }

  lemma {:induction false} PutElsewhere<T>(ring: seq<T>, base: nat, block: seq<T>, other: nat, rows: nat)
    requires base + |block| <= |ring| && other + rows <= |ring|
    ensures base + |block| <= other || other + rows <= base ==>
        Block(Spliced(ring, base, block), other, rows) == Block(ring, other, rows)
    ensures Block(Spliced(ring, base, block), base, |block|) == block
  {
  }

  /** The block of every boundary passed so far has the carry of the last boundary in its page, whatever
      the ring held. */
  lemma {:induction false} BoundariesKept<K, S>(
        c: Conf<K, S>, ring: seq<Row<K, S>>, hist: seq<Row<K, S>>, slots: seq<nat>, last: nat, k: nat)
    requires Slotted(c, slots, |ring|) && InHistory(c, hist, slots, last) && 0 < k <= last
    ensures EndsIn(c, slots, k) && BlockOf(c, slots, k) + c.rows <= |ring|
    ensures var j := Newest(c, slots, k, last);
            c.page <= Base(j, c.page) <= |hist| &&
            Block(Written(c, ring, hist, slots, 0, last), BlockOf(c, slots, k), c.rows) ==
                Carry(c, hist, Base(j, c.page))
    decreases last
  {
    BaseAscends(0, k, c.page);
    BaseAscends(k, last, c.page);
    BaseAscends(last - 1, last, c.page);
    WrittenNext(c, ring, hist, slots, 0, last - 1);
    var before := Written(c, ring, hist, slots, 0, last - 1);
    var mine, newest := BlockOf(c, slots, k), BlockOf(c, slots, last);
    PutElsewhere(before, newest, Carry(c, hist, Base(last, c.page)), mine, c.rows);
    if k < last && WindowPage(c, slots, last) != WindowPage(c, slots, k) {
      BlocksApart(SlotAt(slots, k, c.page), SlotAt(slots, last, c.page), c.page, c.rows);
      hide Base, Groups, BlockBase, Spliced, Block, Carry;
      BoundariesKept(c, ring, hist, slots, last - 1, k);
    }
  }

  /** A block of a page that ends at no boundary passed is left alone. */
  lemma {:induction false} OthersKept<K, S>(c: Conf<K, S>, ring: seq<Row<K, S>>, hist: seq<Row<K, S>>,
        slots: seq<nat>, first: nat, last: nat, slot: nat)
    requires Slotted(c, slots, |ring|) && InHistory(c, hist, slots, last) &&
        BlockBase(slot, c.page, c.rows) + c.rows <= |ring|
    requires forall i {:trigger Base(i, c.page)} :: first < i <= last && 0 < Base(i, c.page) <= |slots| ==>
        Groups(SlotAt(slots, i, c.page), c.page) != Groups(slot, c.page)
    ensures Block(Written(c, ring, hist, slots, first, last), BlockBase(slot, c.page, c.rows), c.rows) == Block(ring,
        BlockBase(slot, c.page, c.rows), c.rows)
    decreases last
  {
    if first < last {
      BaseAscends(0, last, c.page);
      BaseAscends(last - 1, last, c.page);
      WrittenNext(c, ring, hist, slots, first, last - 1);
      BlocksApart(slot, SlotAt(slots, last, c.page), c.page, c.rows);
      PutElsewhere(Written(c, ring, hist, slots, first, last - 1), BlockOf(c, slots, last),
          Carry(c, hist, Base(last, c.page)), BlockBase(slot, c.page, c.rows), c.rows);
      OthersKept(c, ring, hist, slots, first, last - 1, slot);
    }
  }

  /** A resume at any page boundary passed, whatever spans the sequence was computed in: the block at the
      boundary's window slot is the carry of the last boundary in that page; its own if no later one reused
      the page. */
  lemma {:induction false} ResumeReads<K, S>(
      c: Conf<K, S>, ring: seq<Row<K, S>>, hist: seq<Row<K, S>>, slots: seq<nat>, cuts: seq<nat>, k: nat)
    requires Slotted(c, slots, |ring|) && |hist| == |slots| && Cuts(c, cuts, |hist|)
    requires 0 < k <= Groups(cuts[|cuts| - 1], c.page)
    ensures EndsIn(c, slots, k) && BlockOf(c, slots, k) + c.rows <= |ring|
    ensures InHistory(c, hist, slots, Groups(cuts[|cuts| - 1], c.page))
    ensures var j := Newest(c, slots, k, Groups(cuts[|cuts| - 1], c.page));
            c.page <= Base(j, c.page) <= |hist| &&
            Block(Chained(c, ring, hist, slots, cuts), BlockOf(c, slots, k), c.rows) == Carry(c, hist, Base(j, c.page))
  {
    var last := Groups(cuts[|cuts| - 1], c.page);
    hide *;
    SplitIsOnePass(c, ring, hist, slots, cuts);
    BoundariesKept(c, ring, hist, slots, last, k);
  }
}
