/** What a compressor reduces, group by group: from scratch over a whole sequence, or resumed at page
    boundaries from the carries in the ring. */
module CarryResume {
  import opened Basics
  import opened GroupMath
  import opened BoundaryCarry

  /** What the reduction of a group gets: rows of the group before it, with overlap, and its own. */
  datatype Input<K, S> = Input(before: seq<Row<K, S>>, own: seq<Row<K, S>>)

  /** Rows with their scores biased by their place in the group. */
  function Biased<K, S>(c: Conf<K, S>, rows: seq<Row<K, S>>): (r: seq<Row<K, S>>)
    ensures |r| == |rows|
  {
    seq(|rows|, i requires 0 <= i < |rows| => Row(rows[i].kv, c.bias(rows[i].score, i)))
  }

  /** The biased rows of group `g`. */
  function OfGroup<K, S>(c: Conf<K, S>, rows: seq<Row<K, S>>, g: nat): (r: seq<Row<K, S>>)
    requires Base(g, c.ratio) + c.ratio <= |rows|
    ensures |r| == c.ratio
  {
    Biased(c, rows[Base(g, c.ratio)..Base(g, c.ratio) + c.ratio])
  }

  function Reset<K, S>(c: Conf<K, S>, n: nat): (r: seq<Row<K, S>>)
    ensures |r| == n
  {
    seq(n, _ => Row(c.zero, c.floor))
  }

  /** Group `g` of a sequence computed in one pass: the first group has reset rows before it. */
  function Scratch<K, S>(c: Conf<K, S>, hist: seq<Row<K, S>>, g: nat): Input<K, S>
    requires Base(g, c.ratio) + c.ratio <= |hist|
  {
    BaseAscends(if g == 0 then 0 else g - 1, g, c.ratio);
    Input(if !c.overlap then [] else if g == 0 then Reset(c, c.ratio) else OfGroup(c, hist, g - 1), OfGroup(c, hist, g))
  }

  /** Group `j` of a span resumed from a block: the block stands in front of the span's first group. */
  function Resumed<K, S>(c: Conf<K, S>, block: seq<Row<K, S>>, span: seq<Row<K, S>>, j: nat): Input<K, S>
    requires c.ratio <= |block| && Base(j, c.ratio) + c.ratio <= |span|
  {
    BaseAscends(if j == 0 then 0 else j - 1, j, c.ratio);
    Input(if !c.overlap then [] else if j == 0 then block[..c.ratio] else OfGroup(c, span, j - 1), OfGroup(c, span, j))
  }

  /** Group size, as a positive number, and pages of whole groups. */
  predicate WholeGroups<K, S>(c: Conf<K, S>) {
    Good(c) && 0 < c.ratio && c.page % c.ratio == 0
  }

  /** An aligned position is a group boundary. */
  lemma {:induction false} AlignedIsBase<K, S>(c: Conf<K, S>, lo: nat)
    requires WholeGroups(c) && Aligned(lo, c.page)
    ensures Base(Groups(lo, c.ratio), c.ratio) == lo
    ensures 0 < lo ==> 0 < Groups(lo, c.ratio) && c.page <= lo && Base(Groups(lo, c.page), c.page) == lo
  {
    var m, q := c.page / c.ratio, lo / c.page;
    assert lo == q * c.page && c.page == m * c.ratio;
    assert lo == (q * m) * c.ratio;
    GroupsOfBase(q * m, c.ratio);
    OpenIsBase(lo, c.page);
    if 0 < lo { Monotone(1, q, c.page); }
  }

  lemma {:induction false} BaseSum(a: nat, b: nat, ratio: nat)
    ensures Base(a + b, ratio) == Base(a, ratio) + Base(b, ratio)
  {
  }

  /** The block has the last group before `lo`, biased, as far as groups overlap; before the first, and in
      the rows left over, it is reset. */
  ghost predicate Continues<K, S>(c: Conf<K, S>, block: seq<Row<K, S>>, hist: seq<Row<K, S>>, lo: nat) {
    && |block| == c.rows && lo <= |hist|
    && (c.overlap && 0 < lo ==> c.ratio <= lo)
    && forall i :: 0 <= i < c.rows ==>
        block[i] == if c.overlap && i < c.ratio && 0 < lo
            then Row(hist[lo - c.ratio + i].kv, c.bias(hist[lo - c.ratio + i].score, i))
            else Row(c.zero, c.floor)
  }

  /** A resume at an aligned position, from a block that has the last group before it, reduces what one
      pass reduces: in every group of the span the rows are those of the whole sequence. */
  lemma {:induction false} ResumedIsScratch<K, S>(
      c: Conf<K, S>, block: seq<Row<K, S>>, hist: seq<Row<K, S>>, lo: nat, hi: nat, j: nat)
    requires WholeGroups(c) && Aligned(lo, c.page) && lo <= hi <= |hist| && j < Groups(hi - lo, c.ratio)
    requires Continues(c, block, hist, lo)
    ensures Base(j, c.ratio) + c.ratio <= hi - lo
    ensures Base(Groups(lo, c.ratio) + j, c.ratio) + c.ratio <= hi
    ensures Resumed(c, block, hist[lo..hi], j) == Scratch(c, hist[..hi], Groups(lo, c.ratio) + j)
  {
    var g := Groups(lo, c.ratio);
    AlignedIsBase(c, lo);
    GroupInside(j, hi - lo, c.ratio);
    BaseSum(g, j, c.ratio);
    SameGroup(c, hist, lo, hi, j);
    if c.overlap { SameBefore(c, block, hist, lo, hi, j); }
    hide OfGroup, WholeGroups, Aligned, Good, Base, Groups;
  }

  /** With overlap, the rows before a span's group are the group before it, the block for the first. */
  lemma {:induction false} SameBefore<K, S>(
      c: Conf<K, S>, block: seq<Row<K, S>>, hist: seq<Row<K, S>>, lo: nat, hi: nat, j: nat)
    requires WholeGroups(c) && Aligned(lo, c.page) && lo <= hi <= |hist| && Base(j, c.ratio) + c.ratio <= hi - lo
    requires Continues(c, block, hist, lo) && c.overlap
    ensures var g := Groups(lo, c.ratio) + j;
            g == 0 <==> lo == 0 && j == 0
    ensures j == 0 && lo == 0 ==> block[..c.ratio] == Reset(c, c.ratio)
    ensures j == 0 && 0 < lo ==> (
      && 0 < Groups(lo, c.ratio) && Base(Groups(lo, c.ratio) - 1, c.ratio) + c.ratio <= hi
      && block[..c.ratio] == OfGroup(c, hist[..hi], Groups(lo, c.ratio) - 1))
    ensures 0 < j ==> (
      && Base(j - 1, c.ratio) + c.ratio <= hi - lo && Base(Groups(lo, c.ratio) + j - 1, c.ratio) + c.ratio <= hi
      && OfGroup(c, hist[lo..hi], j - 1) == OfGroup(c, hist[..hi], Groups(lo, c.ratio) + j - 1))
  {
    var g := Groups(lo, c.ratio);
    AlignedIsBase(c, lo);
    if 0 < j {
      BaseAscends(j - 1, j, c.ratio);
      SameGroup(c, hist, lo, hi, j - 1);
    } else if 0 < lo {
      BaseAscends(g - 1, g, c.ratio);
      hide Base, Groups;
      assert hist[..hi][lo - c.ratio..lo] == hist[lo - c.ratio..lo];
    }
  }

  lemma {:induction false} SameGroup<K, S>(c: Conf<K, S>, hist: seq<Row<K, S>>, lo: nat, hi: nat, j: nat)
    requires lo <= hi <= |hist| && Base(Groups(lo, if c.ratio == 0 then 1 else c.ratio), c.ratio) == lo
    requires 0 < c.ratio && Base(j, c.ratio) + c.ratio <= hi - lo
    ensures Base(Groups(lo, c.ratio) + j, c.ratio) + c.ratio <= hi
    ensures OfGroup(c, hist[lo..hi], j) == OfGroup(c, hist[..hi], Groups(lo, c.ratio) + j)
  {
    BaseSum(Groups(lo, c.ratio), j, c.ratio);
    var at := Base(j, c.ratio);
    assert hist[lo..hi][at..at + c.ratio] == hist[..hi][lo + at..lo + at + c.ratio];
  }

  // ----- Any split -----

  /** The reduced groups of a sequence in one pass. */
  function OnePass<K, S, V>(c: Conf<K, S>, reduce: Input<K, S> -> V, hist: seq<Row<K, S>>): (r: seq<V>)
    requires 0 < c.ratio
    ensures |r| == Groups(|hist|, c.ratio)
  {
    seq(Groups(|hist|, c.ratio), g requires 0 <= g < Groups(|hist|, c.ratio) =>
      (GroupInside(g, |hist|, c.ratio); reduce(Scratch(c, hist, g))))
  }

  /** The reduced groups of one span resumed from a block. */
  function OneSpan<K, S, V>(c: Conf<K, S>, reduce: Input<K, S> -> V, block: seq<Row<K, S>>, span: seq<Row<K, S>>): (
        r: seq<V>)
    requires 0 < c.ratio <= |block|
    ensures |r| == Groups(|span|, c.ratio)
  {
    seq(Groups(|span|, c.ratio), j requires 0 <= j < Groups(|span|, c.ratio) =>
      (GroupInside(j, |span|, c.ratio); reduce(Resumed(c, block, span, j))))
  }

  /** What a resume at `lo` starts from: the block in the ring, or at the beginning reset rows. */
  function Seed<K, S>(c: Conf<K, S>, ring: seq<Row<K, S>>, slots: seq<nat>, lo: nat): (r: seq<Row<K, S>>)
    requires Slotted(c, slots, |ring|) && Aligned(lo, c.page) && lo <= |slots|
    ensures |r| == c.rows
  {
    if lo == 0 then Reset(c, c.rows) else Block(ring, BlockBase(slots[lo - 1], c.page, c.rows), c.rows)
  }

  /** The groups reduced span by span, each span resumed from what the spans before left in the ring. */
  ghost function SpanBySpan<K, S, V>(c: Conf<K, S>, reduce: Input<K, S> -> V, ring: seq<Row<K, S>>,
        hist: seq<Row<K, S>>, slots: seq<nat>, cuts: seq<nat>): (r: seq<V>)
    requires Slotted(c, slots, |ring|) && |hist| == |slots| && Cuts(c, cuts, |hist|) && 0 < c.ratio
    decreases |cuts|
  {
    var n := |cuts| - 1;
    if n == 0 then [] else
      var lo, hi := cuts[n - 1], cuts[n];
      SpanBySpan(c, reduce, ring, hist, slots, cuts[..n]) +
      OneSpan(c, reduce, Seed(c, Chained(c, ring, hist, slots, cuts[..n]), slots, lo), hist[lo..hi])
  }

  /** However a sequence is split at page boundaries, whatever the ring held before and whatever pages are
      reused, the groups reduced are those of one pass. */
  lemma {:induction false} SplitReducesAlike<K, S, V>(c: Conf<K, S>, reduce: Input<K, S> -> V,
        ring: seq<Row<K, S>>, hist: seq<Row<K, S>>, slots: seq<nat>, cuts: seq<nat>)
    requires Slotted(c, slots, |ring|) && |hist| == |slots| && Cuts(c, cuts, |hist|) && WholeGroups(c)
    ensures SpanBySpan(c, reduce, ring, hist, slots, cuts) == OnePass(c, reduce, hist[..cuts[|cuts| - 1]])
    decreases |cuts|
  {
    hide *;
    var n := |cuts| - 1;
    NoSpan(c, reduce, ring, hist, slots, cuts);
    if n != 0 {
      LastSpan(c, reduce, ring, hist, slots, cuts);
      SplitReducesAlike(c, reduce, ring, hist, slots, cuts[..n]);
      SeedContinues(c, reduce, ring, hist, slots, cuts[..n], cuts[n]);
    }
  }

  lemma {:induction false} NoSpan<K, S, V>(c: Conf<K, S>, reduce: Input<K, S> -> V,
        ring: seq<Row<K, S>>, hist: seq<Row<K, S>>, slots: seq<nat>, cuts: seq<nat>)
    requires Slotted(c, slots, |ring|) && |hist| == |slots| && Cuts(c, cuts, |hist|) && WholeGroups(c)
    ensures |cuts| > 0 && cuts[|cuts| - 1] <= |hist| && 0 < c.ratio
    ensures |cuts| == 1 ==>
        SpanBySpan(c, reduce, ring, hist, slots, cuts) == OnePass(c, reduce, hist[..cuts[|cuts| - 1]])
  {
    GroupsOfBase(0, c.ratio);
  }

  lemma {:induction false} SeedContinues<K, S, V>(c: Conf<K, S>, reduce: Input<K, S> -> V,
        ring: seq<Row<K, S>>, hist: seq<Row<K, S>>, slots: seq<nat>, cuts: seq<nat>, hi: nat)
    requires Slotted(c, slots, |ring|) && |hist| == |slots| && Cuts(c, cuts, |hist|) && WholeGroups(c)
    requires Aligned(cuts[|cuts| - 1], c.page) && cuts[|cuts| - 1] <= hi <= |hist|
    ensures c.ratio <= c.rows && 0 < c.ratio
    ensures var lo := cuts[|cuts| - 1];
            OnePass(c, reduce, hist[..lo]) +
            OneSpan(c, reduce, Seed(c, Chained(c, ring, hist, slots, cuts), slots, lo), hist[lo..hi]) ==
            OnePass(c, reduce, hist[..hi])
  {
    var lo := cuts[|cuts| - 1];
    SeedHolds(c, ring, hist, slots, cuts);
    assert c.ratio <= c.rows && 0 < c.ratio;
    hide *;
    SpanContinues(c, reduce, Seed(c, Chained(c, ring, hist, slots, cuts), slots, lo), hist, lo, hi);
  }

  lemma {:induction false} LastSpan<K, S, V>(c: Conf<K, S>, reduce: Input<K, S> -> V,
        ring: seq<Row<K, S>>, hist: seq<Row<K, S>>, slots: seq<nat>, cuts: seq<nat>)
    requires Slotted(c, slots, |ring|) && |hist| == |slots| && Cuts(c, cuts, |hist|) && WholeGroups(c)
    requires 1 < |cuts|
    ensures var n := |cuts| - 1;
            var front, lo, hi := cuts[..n], cuts[n - 1], cuts[n];
            && |front| == n && front[n - 1] == lo && lo <= hi <= |hist| && Aligned(lo, c.page) && c.ratio <= c.rows
            && Cuts(c, front, |hist|)
            && SpanBySpan(c, reduce, ring, hist, slots, cuts) ==
                SpanBySpan(c, reduce, ring, hist, slots, front) +
                OneSpan(c, reduce, Seed(c, Chained(c, ring, hist, slots, front), slots, lo), hist[lo..hi])
  {
    hide Chained, Slotted, Seed, OneSpan;
  }

  /** The seed after some spans is the last group before their end. */
  lemma {:induction false} SeedHolds<K, S>(c: Conf<K, S>, ring: seq<Row<K, S>>, hist: seq<Row<K, S>>,
        slots: seq<nat>, cuts: seq<nat>)
    requires Slotted(c, slots, |ring|) && |hist| == |slots| && Cuts(c, cuts, |hist|) && WholeGroups(c)
    requires Aligned(cuts[|cuts| - 1], c.page)
    ensures var lo := cuts[|cuts| - 1];
            Continues(c, Seed(c, Chained(c, ring, hist, slots, cuts), slots, lo), hist, lo)
  {
    var lo := cuts[|cuts| - 1];
    if 0 < lo {
      AlignedIsBase(c, lo);
      hide Cuts, Chained, Slotted, Aligned, BlockBase, Groups;
      ResumeReads(c, ring, hist, slots, cuts, Groups(lo, c.page));
    }
  }

  /** One more span continues one pass. */
  lemma {:induction false} SpanContinues<K, S, V>(c: Conf<K, S>, reduce: Input<K, S> -> V, seed: seq<Row<K, S>>,
        hist: seq<Row<K, S>>, lo: nat, hi: nat)
    requires WholeGroups(c) && Aligned(lo, c.page) && lo <= hi <= |hist| && Continues(c, seed, hist, lo)
    ensures 0 < c.ratio <= |seed|
    ensures OnePass(c, reduce, hist[..lo]) + OneSpan(c, reduce, seed, hist[lo..hi]) == OnePass(c, reduce, hist[..hi])
  {
    assert 0 < c.ratio <= |seed|;
    hide Continues;
    var a, b, all := OnePass(c, reduce, hist[..lo]), OneSpan(c, reduce, seed, hist[lo..hi]),
        OnePass(c, reduce, hist[..hi]);
    AlignedIsBase(c, lo);
    GroupsSum(lo, hi, c.ratio);
    forall g | 0 <= g < |all| ensures (a + b)[g] == all[g] {
      GroupInside(g, hi, c.ratio);
      if g < |a| {
        GroupInside(g, lo, c.ratio);
        ScratchPrefix(c, hist, lo, hi, g);
      } else {
        ResumedIsScratch(c, seed, hist, lo, hi, g - |a|);
      }
    }
  }

  lemma {:induction false} GroupsSum(lo: nat, hi: nat, ratio: Pos)
    requires lo <= hi && Base(Groups(lo, ratio), ratio) == lo
    ensures Groups(lo, ratio) + Groups(hi - lo, ratio) == Groups(hi, ratio)
  {
    var g := Groups(hi - lo, ratio);
    OpenIsBase(hi - lo, ratio);
    BaseSum(Groups(lo, ratio), g, ratio);
    BaseSum(Groups(lo, ratio), g + 1, ratio);
    BaseAscends(g, g + 1, ratio);
    GroupInside(Groups(lo, ratio) + g, hi, ratio);
    GroupInside(Groups(lo, ratio) + g + 1, hi, ratio);
  }

  lemma {:induction false} ScratchPrefix<K, S>(c: Conf<K, S>, hist: seq<Row<K, S>>, lo: nat, hi: nat, g: nat)
    requires lo <= hi <= |hist| && Base(g, c.ratio) + c.ratio <= lo
    ensures Scratch(c, hist[..lo], g) == Scratch(c, hist[..hi], g)
  {
    BaseAscends(if g == 0 then 0 else g - 1, g, c.ratio);
    var at := Base(g, c.ratio);
    assert hist[..lo][at..at + c.ratio] == hist[..hi][at..at + c.ratio];
    if 0 < g {
      var was := Base(g - 1, c.ratio);
      assert hist[..lo][was..was + c.ratio] == hist[..hi][was..was + c.ratio];
    }
  }
}
