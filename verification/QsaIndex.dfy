/** The compressed QSA index: one pooled and transformed key per completed group of `ratio` tokens,
    and a ring of `ratio` raw keys per request slot for the group that is still open. */
module QsaIndex {
  import opened Basics
  import opened GroupMath

  datatype Token<K, P> = Token(key: K, pos: P)

  /** The group size and the two numeric operations, which the addressing does not depend on. */
  datatype Ops<!K, !P> = Ops(ratio: Pos, pool: seq<K> -> K, transform: (K, P) -> K)

  datatype Cache<K, P> = Cache(comp: seq<K>, ring: seq<Token<K, P>>)

  function Keys<K, P>(ts: seq<Token<K, P>>): seq<K> {
    seq(|ts|, i requires 0 <= i < |ts| => ts[i].key)
  }

  /** What the index holds for the complete group that starts at `base`, from the whole history:
      the mean of its raw keys, transformed at the position of its first token. */
  function Pooled<K, P>(o: Ops<K, P>, hist: seq<Token<K, P>>, base: nat): K
    requires base + o.ratio <= |hist|
  {
    o.transform(o.pool(Keys(hist[base..base + o.ratio])), hist[base].pos)
  }

  /** Writes `vals[k]` at `locs[k]`, in order. */
  function Scatter<T>(a: seq<T>, locs: seq<nat>, vals: seq<T>): (r: seq<T>)
    requires |locs| == |vals| && forall k :: 0 <= k < |locs| ==> locs[k] < |a|
    ensures |r| == |a|
  {
    if locs == [] then a else
      var n := |locs| - 1;
      Scatter(a, locs[..n], vals[..n])[locs[n] := vals[n]]
  }

  lemma {:induction false} ScatterMisses<T>(a: seq<T>, locs: seq<nat>, vals: seq<T>, x: nat)
    requires |locs| == |vals| && forall k :: 0 <= k < |locs| ==> locs[k] < |a|
    requires x < |a| && forall k :: 0 <= k < |locs| ==> locs[k] != x
    ensures Scatter(a, locs, vals)[x] == a[x]
  {
    if locs != [] {
      var n := |locs| - 1;
      ScatterMisses(a, locs[..n], vals[..n], x);
    }
  }

  lemma {:induction false} ScatterHits<T>(a: seq<T>, locs: seq<nat>, vals: seq<T>, k: nat)
    requires |locs| == |vals| && forall k :: 0 <= k < |locs| ==> locs[k] < |a|
    requires k < |locs| && forall j :: 0 <= j < |locs| && j != k ==> locs[j] != locs[k]
    ensures Scatter(a, locs, vals)[locs[k]] == vals[k]
  {
    var n := |locs| - 1;
    if k < n {
      ScatterHits(a, locs[..n], vals[..n], k);
    }
  }

  /** Token `p` of the request: a current one if it is not before `start`, else from the ring. */
  function TokenAt<K, P>(o: Ops<K, P>, ring: seq<Token<K, P>>, slot: nat, start: nat, current: seq<Token<K, P>>,
        p: nat): Token<K, P>
    requires SlotInRing(o, ring, slot) && p < start + |current|
  {
    RingInSlot(slot, p, o.ratio);
    if p >= start then current[p - start] else ring[RingLoc(slot, p, o.ratio)]
  }

  predicate SlotInRing<K, P>(o: Ops<K, P>, ring: seq<Token<K, P>>, slot: nat) {
    Base(slot, o.ratio) + o.ratio <= |ring|
  }

  /** What the update writes for the group that starts at `base`. */
  function NewGroup<K, P>(o: Ops<K, P>, ring: seq<Token<K, P>>, slot: nat, start: nat, current: seq<Token<K, P>>,
        base: nat): K
    requires SlotInRing(o, ring, slot) && base + o.ratio <= start + |current|
  {
    var keys := seq(o.ratio, i requires 0 <= i < o.ratio => TokenAt(o, ring, slot, start, current, base + i).key);
    o.transform(o.pool(keys), TokenAt(o, ring, slot, start, current, base).pos)
  }

  predicate Fits<K, P>(o: Ops<K, P>, c: Cache<K, P>, row: seq<nat>, slot: nat, start: nat, current: seq<Token<K, P>>) {
    && SlotInRing(o, c.ring, slot)
    && start + |current| <= |row|
    && forall p :: 0 <= p < |row| ==> row[p] / o.ratio < |c.comp|
  }

  /** The compressed row of group `g`: the physical location of its first token over the ratio. */
  function RowOf(row: seq<nat>, g: nat, ratio: Pos): nat
    requires Base(g, ratio) < |row|
  {
    row[Base(g, ratio)] / ratio
  }

  /** The rows and values of groups `from..to`. */
  function CompLocs(row: seq<nat>, from: nat, to: nat, ratio: Pos): (locs: seq<nat>)
    requires from <= to && Base(to, ratio) <= |row|
    ensures |locs| == to - from
    ensures forall k :: 0 <= k < |locs| ==> (BaseAscends(from + k, to, ratio); locs[k] == RowOf(row, from + k, ratio))
  {
    seq<nat>(to - from, k requires 0 <= k < to - from => (BaseAscends(from + k, to, ratio); RowOf(row, from + k,
        ratio)))
  }

  function CompVals<K, P>(o: Ops<K, P>, ring: seq<Token<K, P>>, slot: nat, start: nat, current: seq<Token<K, P>>,
        from: nat, to: nat): (vals: seq<K>)
    requires SlotInRing(o, ring, slot) && from <= to && Base(to, o.ratio) <= start + |current|
    ensures |vals| == to - from
    ensures forall k :: 0 <= k < |vals| ==>
      (BaseAscends(from + k, to, o.ratio); vals[k] == NewGroup(o, ring, slot, start, current, Base(from + k, o.ratio)))
  {
    seq(to - from, k requires 0 <= k < to - from =>
      (BaseAscends(from + k, to, o.ratio); NewGroup(o, ring, slot, start, current, Base(from + k, o.ratio))))
  }

  function RingLocs(slot: nat, from: nat, to: nat, ratio: Pos): (locs: seq<nat>)
    requires from <= to
    ensures |locs| == to - from && forall k :: 0 <= k < |locs| ==> locs[k] == RingLoc(slot, from + k, ratio)
  {
    seq<nat>(to - from, k requires 0 <= k < to - from => RingLoc(slot, from + k, ratio))
  }

  /** The compressed rows after the groups completed by the current tokens are written. */
  function UpdateComp<K, P>(o: Ops<K, P>, c: Cache<K, P>, row: seq<nat>, slot: nat, start: nat,
        current: seq<Token<K, P>>): (r: seq<K>)
    requires Fits(o, c, row, slot, start, current)
    ensures |r| == |c.comp|
  {
    var stop := start + |current|;
    var from, to := Groups(start, o.ratio), Groups(stop, o.ratio);
    GroupsAscend(start, stop, o.ratio);
    OpenIsBase(stop, o.ratio);
    LocsFit(row, from, to, o.ratio, |c.comp|);
    Scatter(c.comp, CompLocs(row, from, to, o.ratio), CompVals(o, c.ring, slot, start, current, from, to))
  }

  lemma {:induction false} LocsFit(row: seq<nat>, from: nat, to: nat, ratio: Pos, n: nat)
    requires from <= to && Base(to, ratio) <= |row| && forall p :: 0 <= p < |row| ==> row[p] / ratio < n
    ensures forall k :: 0 <= k < to - from ==> CompLocs(row, from, to, ratio)[k] < n
  {
    forall k | 0 <= k < to - from ensures CompLocs(row, from, to, ratio)[k] < n {
      BaseAscends(from + k, to, ratio);
    }
  }

  /** First position of the tail that goes to the ring. */
  function TailStart(start: nat, stop: nat, ratio: Pos): (t: nat)
    requires start <= stop
    ensures start <= t <= stop && OpenStart(stop, ratio) <= t
  {
    OpenIsBase(stop, ratio);
    if start < OpenStart(stop, ratio) then OpenStart(stop, ratio) else start
  }

  /** The ring after the current tokens of the open group are stored. */
  function UpdateRing<K, P>(o: Ops<K, P>, ring: seq<Token<K, P>>, slot: nat, start: nat, current: seq<Token<K, P>>): (
        r: seq<Token<K, P>>)
    requires SlotInRing(o, ring, slot)
    ensures |r| == |ring|
  {
    var stop := start + |current|;
    var tail := TailStart(start, stop, o.ratio);
    RingLocsFit(slot, tail, stop, o.ratio, |ring|);
    Scatter(ring, RingLocs(slot, tail, stop, o.ratio), current[tail - start..])
  }

  lemma {:induction false} RingLocsFit(slot: nat, from: nat, to: nat, ratio: Pos, n: nat)
    requires from <= to && Base(slot, ratio) + ratio <= n
    ensures forall k :: 0 <= k < to - from ==>
        Base(slot, ratio) <= RingLocs(slot, from, to, ratio)[k] < Base(slot, ratio) + ratio <= n
  {
    forall k | 0 <= k < to - from
        ensures Base(slot, ratio) <= RingLocs(slot, from, to, ratio)[k] < Base(slot, ratio) + ratio {
      RingInSlot(slot, from + k, ratio);
    }
  }

  /** The whole update of one request. */
  function Update<K, P>(o: Ops<K, P>, c: Cache<K, P>, row: seq<nat>, slot: nat, start: nat,
        current: seq<Token<K, P>>): (r: Cache<K, P>)
    requires Fits(o, c, row, slot, start, current)
    ensures |r.comp| == |c.comp| && |r.ring| == |c.ring|
  {
    Cache(UpdateComp(o, c, row, slot, start, current), UpdateRing(o, c.ring, slot, start, current))
  }

  // ----- Agreement with the whole history -----

  /** The row of a group holds its whole-history value. */
  ghost predicate GroupAgrees<K, P>(o: Ops<K, P>, comp: seq<K>, row: seq<nat>, hist: seq<Token<K, P>>, g: nat) {
    && Base(g, o.ratio) + o.ratio <= |hist| <= |row|
    && RowOf(row, g, o.ratio) < |comp|
    && comp[RowOf(row, g, o.ratio)] == Pooled(o, hist, Base(g, o.ratio))
  }

  ghost predicate CompAgrees<K, P>(o: Ops<K, P>, comp: seq<K>, row: seq<nat>, hist: seq<Token<K, P>>)
  {
    forall g: nat :: g < Groups(|hist|, o.ratio) ==> GroupAgrees(o, comp, row, hist, g)
  }

  /** The ring holds the tokens of the open group. */
  ghost predicate RingAgrees<K, P>(o: Ops<K, P>, ring: seq<Token<K, P>>, slot: nat, hist: seq<Token<K, P>>) {
    && SlotInRing(o, ring, slot)
    && forall p :: OpenStart(|hist|, o.ratio) <= p < |hist| ==>
        (RingInSlot(slot, p, o.ratio); ring[RingLoc(slot, p, o.ratio)] == hist[p])
  }

  ghost predicate Agrees<K, P>(o: Ops<K, P>, c: Cache<K, P>, row: seq<nat>, slot: nat, hist: seq<Token<K, P>>) {
    RingAgrees(o, c.ring, slot, hist) && CompAgrees(o, c.comp, row, hist)
  }

  /** Rows of distinct groups of one request differ. */
  ghost predicate RowsApart(row: seq<nat>, ratio: Pos) {
    forall g: nat, h: nat :: g != h && Base(g, ratio) < |row| && Base(h, ratio) < |row| ==>
        RowOf(row, g, ratio) != RowOf(row, h, ratio)
  }

  lemma {:induction false} TokenIsHistory<K, P>(
        o: Ops<K, P>, ring: seq<Token<K, P>>, slot: nat, hist: seq<Token<K, P>>, current: seq<Token<K, P>>, p: nat)
    requires RingAgrees(o, ring, slot, hist) && OpenStart(|hist|, o.ratio) <= p < |hist| + |current|
    ensures TokenAt(o, ring, slot, |hist|, current, p) == (hist + current)[p]
  {
  }

  /** A group completed by the current tokens gets its whole-history value: what it lacks of them
      is exactly what the ring still holds. */
  lemma {:induction false} NewGroupIsPooled<K, P>(
        o: Ops<K, P>, ring: seq<Token<K, P>>, slot: nat, hist: seq<Token<K, P>>, current: seq<Token<K, P>>, base: nat)
    requires RingAgrees(o, ring, slot, hist)
    requires OpenStart(|hist|, o.ratio) <= base && base + o.ratio <= |hist| + |current|
    ensures NewGroup(o, ring, slot, |hist|, current, base) == Pooled(o, hist + current, base)
  {
    var keys := seq(o.ratio, i requires 0 <= i < o.ratio => TokenAt(o, ring, slot, |hist|, current, base + i).key);
    var want := Keys((hist + current)[base..base + o.ratio]);
    forall i | 0 <= i < o.ratio ensures keys[i] == want[i] {
      TokenIsHistory(o, ring, slot, hist, current, base + i);
      assert (hist + current)[base..base + o.ratio][i] == (hist + current)[base + i];
    }
    assert keys == want;
    TokenIsHistory(o, ring, slot, hist, current, base);
  }

  /** What the rows of complete groups hold after an update. */
  lemma {:induction false} CompAfter<K, P>(o: Ops<K, P>, c: Cache<K, P>, row: seq<nat>, slot: nat, start: nat,
        current: seq<Token<K, P>>, g: nat)
    requires Fits(o, c, row, slot, start, current) && RowsApart(row, o.ratio) && g < Groups(start + |current|, o.ratio)
    ensures Base(g, o.ratio) + o.ratio <= start + |current| && RowOf(row, g, o.ratio) < |c.comp|
    ensures UpdateComp(o, c, row, slot, start, current)[RowOf(row, g, o.ratio)] ==
      if g < Groups(start, o.ratio) then c.comp[RowOf(row, g, o.ratio)]
          else NewGroup(o, c.ring, slot, start, current, Base(g, o.ratio))
  {
    var stop := start + |current|;
    var from, to := Groups(start, o.ratio), Groups(stop, o.ratio);
    GroupsAscend(start, stop, o.ratio);
    OpenIsBase(stop, o.ratio);
    GroupInside(g, stop, o.ratio);
    LocsFit(row, from, to, o.ratio, |c.comp|);
    hide Groups, Base, OpenStart, NewGroup, Scatter, RowsApart;
    var locs, vals := CompLocs(row, from, to, o.ratio), CompVals(o, c.ring, slot, start, current, from, to);
    LocsApart(row, from, to, o.ratio, g);
    if g < from {
      ScatterMisses(c.comp, locs, vals, RowOf(row, g, o.ratio));
    } else {
      ScatterHits(c.comp, locs, vals, g - from);
    }
  }

  lemma {:induction false} LocsApart(row: seq<nat>, from: nat, to: nat, ratio: Pos, g: nat)
    requires RowsApart(row, ratio) && from <= to && Base(to, ratio) <= |row| && g < to && Base(g, ratio) < |row|
    ensures forall k :: 0 <= k < to - from && from + k != g ==>
        CompLocs(row, from, to, ratio)[k] != RowOf(row, g, ratio)
  {
    forall k | 0 <= k < to - from && from + k != g ensures CompLocs(row, from, to, ratio)[k] != RowOf(row, g, ratio) {
      BaseAscends(from + k, to, ratio);
    }
  }

  /** The ring place of an open position holds its current token, or what it held before. */
  lemma {:induction false} RingAfter<K, P>(o: Ops<K, P>, ring: seq<Token<K, P>>, slot: nat, start: nat,
        current: seq<Token<K, P>>, p: nat)
    requires SlotInRing(o, ring, slot) && OpenStart(start + |current|, o.ratio) <= p < start + |current|
    ensures RingLoc(slot, p, o.ratio) < |ring|
    ensures UpdateRing(o, ring, slot, start, current)[RingLoc(slot, p, o.ratio)] ==
      if p < start then ring[RingLoc(slot, p, o.ratio)] else current[p - start]
  {
    var r, stop := o.ratio, start + |current|;
    RingInSlot(slot, p, r);
    var tail := TailStart(start, stop, r);
    RingLocsFit(slot, tail, stop, r, |ring|);
    hide Base, OpenStart, RingLoc, Scatter;
    var locs, vals := RingLocs(slot, tail, stop, r), current[tail - start..];
    forall k | 0 <= k < |locs| && tail + k != p ensures locs[k] != RingLoc(slot, p, r) {
      RingApart(slot, tail + k, p, stop, r);
    }
    if p < tail {
      ScatterMisses(ring, locs, vals, RingLoc(slot, p, r));
    } else {
      ScatterHits(ring, locs, vals, p - tail);
    }
  }

  lemma {:induction false} PooledKept<K, P>(o: Ops<K, P>, hist: seq<Token<K, P>>, current: seq<Token<K, P>>, base: nat)
    requires base + o.ratio <= |hist|
    ensures Pooled(o, hist + current, base) == Pooled(o, hist, base)
  {
    assert (hist + current)[base..base + o.ratio] == hist[base..base + o.ratio];
  }

  /** Extending a request keeps its index equal to whole-history pooling, however its history was
      split into updates before. */
  lemma {:induction false} UpdateKeepsAgreement<K, P>(
        o: Ops<K, P>, c: Cache<K, P>, row: seq<nat>, slot: nat, hist: seq<Token<K, P>>, current: seq<Token<K, P>>)
    requires Fits(o, c, row, slot, |hist|, current) && RowsApart(row, o.ratio)
    requires Agrees(o, c, row, slot, hist)
    ensures Agrees(o, Update(o, c, row, slot, |hist|, current), row, slot, hist + current)
  {
    var all, after := hist + current, Update(o, c, row, slot, |hist|, current);
    forall g: nat | g < Groups(|all|, o.ratio) ensures GroupAgrees(o, after.comp, row, all, g) {
      CompAfter(o, c, row, slot, |hist|, current, g);
      GroupInside(g, |hist|, o.ratio);
      if g < Groups(|hist|, o.ratio) {
        assert GroupAgrees(o, c.comp, row, hist, g);
        PooledKept(o, hist, current, Base(g, o.ratio));
      } else {
        OpenIsBase(|hist|, o.ratio);
        BaseAscends(Groups(|hist|, o.ratio), g, o.ratio);
        NewGroupIsPooled(o, c.ring, slot, hist, current, Base(g, o.ratio));
      }
    }
    RingKeepsAgreement(o, c.ring, slot, hist, current);
  }

  lemma {:induction false} RingKeepsAgreement<K, P>(
        o: Ops<K, P>, ring: seq<Token<K, P>>, slot: nat, hist: seq<Token<K, P>>, current: seq<Token<K, P>>)
    requires RingAgrees(o, ring, slot, hist)
    ensures RingAgrees(o, UpdateRing(o, ring, slot, |hist|, current), slot, hist + current)
  {
    var r, start, stop := o.ratio, |hist|, |hist| + |current|;
    hide UpdateRing, RingLoc, Base, OpenStart;
    forall p | OpenStart(stop, r) <= p < stop
      ensures RingLoc(slot, p, r) < |ring| && UpdateRing(o, ring, slot, start,
          current)[RingLoc(slot, p, r)] == (hist + current)[p]
    {
      RingAfter(o, ring, slot, start, current, p);
      if p < start {
        StillOpen(start, stop, p, r);
      }
    }
  }
}
