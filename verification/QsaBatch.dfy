/** The update loop over a batch, on the buffers it changes in place. */
module QsaBatch {
  import opened Basics
  import opened GroupMath
  import opened QsaIndex
  import opened QsaGather
  import opened QsaRuns

  /** One request of a batch: its page-table row and slot, its length before, and how many tokens
      it says it adds. */
  datatype Span = Span(row: seq<nat>, slot: nat, start: nat, extend: nat)

  /** A batch: request `i` has the packed tokens `qo[i]..qo[i+1]`. */
  datatype Batch<K, P> = Batch(spans: seq<Span>, qo: seq<nat>, tokens: seq<Token<K, P>>)

  function Packed<K, P>(b: Batch<K, P>, i: nat): seq<Token<K, P>>
    requires i < |b.spans| && WellPacked(b)
  {
    var _ := b.spans[i];
    b.tokens[b.qo[i]..b.qo[i + 1]]
  }

  ghost predicate WellPacked<K, P>(b: Batch<K, P>) {
    |b.qo| == |b.spans| + 1 && forall i {:trigger b.spans[i]} :: 0 <= i < |b.spans| ==>
        b.qo[i] <= b.qo[i + 1] <= |b.tokens|
  }

  /** Every request with packed tokens has page-table entries for them, and a slot in the ring. */
  ghost predicate Ready<K, P>(o: Ops<K, P>, c: Cache<K, P>, b: Batch<K, P>) {
    WellPacked(b) && forall i :: 0 <= i < |b.spans| ==>
      Fits(o, c, b.spans[i].row, b.spans[i].slot, b.spans[i].start, Packed(b, i))
  }

  ghost predicate Accepted<K, P>(b: Batch<K, P>, i: nat)
    requires i < |b.spans| && WellPacked(b)
  {
    |Packed(b, i)| == 0 || |Packed(b, i)| == b.spans[i].extend
  }

  ghost predicate AllAccepted<K, P>(b: Batch<K, P>, n: nat)
    requires WellPacked(b)
  {
    n <= |b.spans| && forall i :: 0 <= i < n ==> Accepted(b, i)
  }

  lemma {:induction false} AcceptedNext<K, P>(b: Batch<K, P>, n: nat)
    requires WellPacked(b) && n < |b.spans| && AllAccepted(b, n) && Accepted(b, n)
    ensures AllAccepted(b, n + 1)
  {
    hide Accepted;
  }

  /** The cache after the first `n` requests. A request with no packed tokens is passed over. */
  ghost function Folded<K, P>(o: Ops<K, P>, c: Cache<K, P>, b: Batch<K, P>, n: nat): (r: Cache<K, P>)
    requires Ready(o, c, b) && n <= |b.spans|
    ensures |r.comp| == |c.comp| && |r.ring| == |c.ring|
  {
    if n == 0 then c else
      var prev, q, current := Folded(o, c, b, n - 1), b.spans[n - 1], Packed(b, n - 1);
      if current == [] then prev else
        assert Fits(o, c, q.row, q.slot, q.start, current);
        Update(o, prev, q.row, q.slot, q.start, current)
  }

  /** The rows and values of the groups an update completes. */
  ghost function Wanted<K, P>(o: Ops<K, P>, c: Cache<K, P>, q: Span, current: seq<Token<K, P>>): (seq<nat>, seq<K>)
    requires Fits(o, c, q.row, q.slot, q.start, current)
  {
    var from, to := Groups(q.start, o.ratio), Groups(q.start + |current|, o.ratio);
    GroupsAscend(q.start, q.start + |current|, o.ratio);
    OpenIsBase(q.start + |current|, o.ratio);
    (CompLocs(q.row, from, to, o.ratio), CompVals(o, c.ring, q.slot, q.start, current, from, to))
  }

  /** The `k`-th completed group is there exactly when the tokens reach its end. */
  lemma {:induction false} GroupStep<K, P>(o: Ops<K, P>, c: Cache<K, P>, q: Span, current: seq<Token<K, P>>, k: nat)
    requires Fits(o, c, q.row, q.slot, q.start, current)
    ensures var from, to, stop := Groups(q.start, o.ratio), Groups(q.start + |current|, o.ratio), q.start + |current|;
            var w := Wanted(o, c, q, current);
            && stop <= |q.row| && from <= to && |w.0| == |w.1| == to - from
            && (k < to - from <==> Base(from + k, o.ratio) + o.ratio <= stop)
            && Base(from + k, o.ratio) + o.ratio == Base(from + k + 1, o.ratio)
            && (k < to - from ==> w.0[k] == q.row[Base(from + k, o.ratio)] / o.ratio
                                  && w.1[k] == NewGroup(o, c.ring, q.slot, q.start, current, Base(from + k, o.ratio)))
  {
    var from, stop := Groups(q.start, o.ratio), q.start + |current|;
    GroupsAscend(q.start, stop, o.ratio);
    OpenIsBase(stop, o.ratio);
    GroupInside(from + k, stop, o.ratio);
    BaseAscends(from + k, from + k + 1, o.ratio);
  }

  lemma {:induction false} FoldedNext<K, P>(o: Ops<K, P>, c: Cache<K, P>, b: Batch<K, P>, n: nat)
    requires Ready(o, c, b) && n < |b.spans|
    ensures var q, current, prev := b.spans[n], Packed(b, n), Folded(o, c, b, n);
            && Fits(o, prev, q.row, q.slot, q.start, current) && |b.qo| == |b.spans| + 1
            && (Accepted(b, n) <==> current == [] || |current| == q.extend)
            && b.qo[n] <= b.qo[n + 1] <= |b.tokens| && current == b.tokens[b.qo[n]..b.qo[n + 1]]
            && Folded(o, c, b, n + 1) == if current == [] then prev
                else Update(o, prev, q.row, q.slot, q.start, current)
  {
    assert Fits(o, c, b.spans[n].row, b.spans[n].slot, b.spans[n].start, Packed(b, n));
  }

  class IndexCache<K, P> {
    const comp: array<K>
    const pendingKeys: array<K>
    const pendingPositions: array<P>

    ghost predicate Valid() {
      && pendingKeys.Length == pendingPositions.Length
      && comp != pendingKeys
      && comp as object != pendingPositions as object
      && pendingKeys as object != pendingPositions as object
    }

    ghost function View(): Cache<K, P>
      requires Valid()
      reads comp, pendingKeys, pendingPositions
    {
      Cache(comp[..], RingView())
    }

    ghost function RingView(): (r: seq<Token<K, P>>)
      requires Valid()
      reads pendingKeys, pendingPositions
      ensures |r| == pendingKeys.Length
      ensures forall i :: 0 <= i < |r| ==> r[i] == Token(pendingKeys[i], pendingPositions[i])
    {
      seq(pendingKeys.Length, i requires 0 <= i < pendingKeys.Length reads pendingKeys, pendingPositions =>
        Token(pendingKeys[i], pendingPositions[i]))
    }

    constructor (comp: array<K>, pendingKeys: array<K>, pendingPositions: array<P>)
      requires comp != pendingKeys && pendingKeys.Length == pendingPositions.Length
      requires comp as object != pendingPositions as object && pendingKeys as object != pendingPositions as object
      ensures Valid() && this.comp == comp && this.pendingKeys == pendingKeys &&
          this.pendingPositions == pendingPositions
    {
      this.comp, this.pendingKeys, this.pendingPositions := comp, pendingKeys, pendingPositions;
    }

    method StoreCompressed(vals: seq<K>, locs: seq<nat>)
      requires Valid() && |vals| == |locs| && forall k :: 0 <= k < |locs| ==> locs[k] < comp.Length
      modifies comp
      ensures comp[..] == Scatter(old(comp[..]), locs, vals)
    {
      for k := 0 to |locs|
        invariant comp[..] == Scatter(old(comp[..]), locs[..k], vals[..k])
      {
        comp[locs[k]] := vals[k];
        assert locs[..k + 1][..k] == locs[..k] && vals[..k + 1][..k] == vals[..k];
      }
      assert locs[..|locs|] == locs && vals[..|locs|] == vals;
    }

    method StorePending(tokens: seq<Token<K, P>>, locs: seq<nat>)
      requires Valid() && |tokens| == |locs| && forall k :: 0 <= k < |locs| ==> locs[k] < pendingKeys.Length
      modifies pendingKeys, pendingPositions
      ensures RingView() == Scatter(old(RingView()), locs, tokens)
    {
      for k := 0 to |locs|
        invariant RingView() == Scatter(old(RingView()), locs[..k], tokens[..k])
      {
        ghost var was := RingView();
        pendingKeys[locs[k]] := tokens[k].key;
        pendingPositions[locs[k]] := tokens[k].pos;
        assert RingView() == was[locs[k] := tokens[k]];
        assert locs[..k + 1][..k] == locs[..k] && tokens[..k + 1][..k] == tokens[..k];
      }
      assert locs[..|locs|] == locs && tokens[..|locs|] == tokens;
    }

    /** A token the current chunk holds, or one the ring still has. */
    method Fetch(o: Ops<K, P>, slot: nat, start: nat, current: seq<Token<K, P>>, p: nat) returns (t: Token<K, P>)
      requires Valid() && SlotInRing(o, RingView(), slot) && p < start + |current|
      ensures t == TokenAt(o, RingView(), slot, start, current, p)
    {
      RingInSlot(slot, p, o.ratio);
      if p >= start {
        t := current[p - start];
      } else {
        var loc := slot * o.ratio + p % o.ratio;
        t := Token(pendingKeys[loc], pendingPositions[loc]);
      }
    }

    method PoolGroup(o: Ops<K, P>, slot: nat, start: nat, current: seq<Token<K, P>>, base: nat) returns (v: K)
      requires Valid() && SlotInRing(o, RingView(), slot) && base + o.ratio <= start + |current|
      ensures v == NewGroup(o, RingView(), slot, start, current, base)
    {
      ghost var ring := RingView();
      var keys: seq<K> := [];
      for i := 0 to o.ratio
        invariant |keys| == i
        invariant forall j :: 0 <= j < i ==> keys[j] == TokenAt(o, ring, slot, start, current, base + j).key
      {
        var t := Fetch(o, slot, start, current, base + i);
        keys := keys + [t.key];
      }
      var first := Fetch(o, slot, start, current, base);
      assert keys == seq(o.ratio, i requires 0 <= i < o.ratio => TokenAt(o, ring, slot, start, current, base + i).key);
      v := o.transform(o.pool(keys), first.pos);
    }

    /** Pools the groups the current tokens complete, then keeps the incomplete tail. */
    method UpdateRequest(o: Ops<K, P>, q: Span, current: seq<Token<K, P>>)
      requires Valid() && Fits(o, View(), q.row, q.slot, q.start, current)
      modifies comp, pendingKeys, pendingPositions
      ensures View() == Update(o, old(View()), q.row, q.slot, q.start, current)
    {
      hide UpdateComp, UpdateRing;
      CompleteGroups(o, q, current);
      if (q.start + |current|) % o.ratio != 0 {
        KeepTail(o, q, current);
      } else {
        NoTail(o, RingView(), q.slot, q.start, current);
      }
    }

    method CompleteGroups(o: Ops<K, P>, q: Span, current: seq<Token<K, P>>)
      requires Valid() && Fits(o, View(), q.row, q.slot, q.start, current)
      modifies comp
      ensures comp[..] == UpdateComp(o, old(View()), q.row, q.slot, q.start, current)
    {
      var locs, vals := CollectGroups(o, q, current);
      LocsFit(q.row, Groups(q.start, o.ratio), Groups(q.start + |current|, o.ratio), o.ratio, comp.Length);
      StoreCompressed(vals, locs);
    }

    /** The rows and pooled keys of the groups the current tokens complete. */
    method CollectGroups(o: Ops<K, P>, q: Span, current: seq<Token<K, P>>) returns (locs: seq<nat>, vals: seq<K>)
      requires Valid() && Fits(o, View(), q.row, q.slot, q.start, current)
      ensures Wanted(o, View(), q, current) == (locs, vals)
    {
      ghost var c := View();
      ghost var want := Wanted(o, c, q, current);
      assert SlotInRing(o, c.ring, q.slot);
      hide *;
      GroupStep(o, c, q, current, 0);
      var stop := q.start + |current|;
      var base := Base(Groups(q.start, o.ratio), o.ratio);
      ghost var k := 0;
      locs, vals := [], [];
      while base + o.ratio <= stop
        invariant |locs| == |vals| == k <= |want.0| == |want.1|
        invariant base == Base(Groups(q.start, o.ratio) + k, o.ratio)
        invariant locs <= want.0 && vals <= want.1
        decreases stop - base
      {
        GroupStep(o, c, q, current, k);
        var v := PoolGroup(o, q.slot, q.start, current, base);
        vals := vals + [v];
        locs := locs + [q.row[base] / o.ratio];
        base, k := base + o.ratio, k + 1;
      }
      GroupStep(o, c, q, current, k);
      assert locs == want.0 && vals == want.1;
    }

    method KeepTail(o: Ops<K, P>, q: Span, current: seq<Token<K, P>>)
      requires Valid() && SlotInRing(o, RingView(), q.slot) && (q.start + |current|) % o.ratio != 0
      modifies pendingKeys, pendingPositions
      ensures RingView() == UpdateRing(o, old(RingView()), q.slot, q.start, current)
    {
      var stop := q.start + |current|;
      var kept := stop - stop % o.ratio;
      var tail := if q.start < kept then kept else q.start;
      RingLocsFit(q.slot, tail, stop, o.ratio, pendingKeys.Length);
      var locs := RingLocs(q.slot, tail, stop, o.ratio);
      assert tail == TailStart(q.start, stop, o.ratio);
      hide OpenStart, RingLoc, Base, Scatter, RingLocs;
      StorePending(current[tail - q.start..], locs);
    }

    /** One round of the batch loop. */
    method UpdateNext(o: Ops<K, P>, b: Batch<K, P>, n: nat, ghost c: Cache<K, P>) returns (ok: bool)
      requires Valid() && Ready(o, c, b) && n < |b.spans| && View() == Folded(o, c, b, n)
      modifies comp, pendingKeys, pendingPositions
      ensures ok <==> Accepted(b, n)
      ensures View() == Folded(o, c, b, if ok then n + 1 else n)
    {
      hide *;
      FoldedNext(o, c, b, n);
      var q, begin, end := b.spans[n], b.qo[n], b.qo[n + 1];
      if begin == end { return true; }
      if q.extend != end - begin { return false; }
      UpdateRequest(o, q, b.tokens[begin..end]);
      ok := true;
    }

    /** The batch loop: stops at the first request whose packed span is not as long as it says. */
    method UpdateBatch(o: Ops<K, P>, b: Batch<K, P>) returns (ok: bool, done: nat)
      requires Valid() && Ready(o, View(), b)
      modifies comp, pendingKeys, pendingPositions
      ensures done <= |b.spans| && (ok <==> done == |b.spans|)
      ensures AllAccepted(b, done) && (!ok ==> !Accepted(b, done))
      ensures View() == Folded(o, old(View()), b, done)
    {
      ghost var c := View();
      ok, done := true, 0;
      FoldedNone(o, c, b);
      hide *;
      while done < |b.spans|
        invariant AllAccepted(b, done) && done <= |b.spans|
        invariant View() == Folded(o, c, b, done)
      {
        ok := UpdateNext(o, b, done, c);
        if !ok { return; }
        AcceptedNext(b, done);
        done := done + 1;
      }
      ok := true;
    }
  }

  lemma {:induction false} FoldedNone<K, P>(o: Ops<K, P>, c: Cache<K, P>, b: Batch<K, P>)
    requires Ready(o, c, b)
    ensures WellPacked(b) && AllAccepted(b, 0) && Folded(o, c, b, 0) == c
  {
  }

  lemma {:induction false} NoTail<K, P>(o: Ops<K, P>, ring: seq<Token<K, P>>, slot: nat, start: nat,
        current: seq<Token<K, P>>)
    requires SlotInRing(o, ring, slot) && (start + |current|) % o.ratio == 0
    ensures UpdateRing(o, ring, slot, start, current) == ring
  {
  }

  // ----- The raw store of a batch -----

  /** Locations and tokens of the first `n` requests, in the order they are packed. */
  ghost function Locations<K, P>(o: Ops<K, P>, c: Cache<K, P>, b: Batch<K, P>, n: nat): seq<nat>
    requires Ready(o, c, b) && n <= |b.spans|
  {
    if n == 0 then [] else
      var q, current := b.spans[n - 1], Packed(b, n - 1);
      assert Fits(o, c, q.row, q.slot, q.start, current);
      Locations(o, c, b, n - 1) + q.row[q.start..q.start + |current|]
  }

  ghost function Tokens<K, P>(o: Ops<K, P>, c: Cache<K, P>, b: Batch<K, P>, n: nat): (r: seq<Token<K, P>>)
    requires Ready(o, c, b) && n <= |b.spans|
    ensures |r| == |Locations(o, c, b, n)|
  {
    if n == 0 then [] else
      assert Fits(o, c, b.spans[n - 1].row, b.spans[n - 1].slot, b.spans[n - 1].start, Packed(b, n - 1));
      Tokens(o, c, b, n - 1) + Packed(b, n - 1)
  }

  ghost predicate RawReady<K, P>(raw: seq<K>, b: Batch<K, P>) {
    forall i :: 0 <= i < |b.spans| ==> RawFits(raw, b.spans[i].row)
  }

  lemma {:induction false} LocationsFit<K, P>(o: Ops<K, P>, c: Cache<K, P>, raw: seq<K>, b: Batch<K, P>, n: nat)
    requires Ready(o, c, b) && RawReady(raw, b) && n <= |b.spans|
    ensures forall k :: 0 <= k < |Locations(o, c, b, n)| ==> Locations(o, c, b, n)[k] < |raw|
  {
    if n != 0 {
      LocationsFit(o, c, raw, b, n - 1);
      assert Fits(o, c, b.spans[n - 1].row, b.spans[n - 1].slot, b.spans[n - 1].start, Packed(b, n - 1));
      assert RawFits(raw, b.spans[n - 1].row);
    }
  }

  /** One store of all packed keys at all their locations. */
  ghost function Stored<K, P>(o: Ops<K, P>, c: Cache<K, P>, raw: seq<K>, b: Batch<K, P>, n: nat): (r: seq<K>)
    requires Ready(o, c, b) && RawReady(raw, b) && n <= |b.spans|
    ensures |r| == |raw|
  {
    LocationsFit(o, c, raw, b, n);
    Scatter(raw, Locations(o, c, b, n), Keys(Tokens(o, c, b, n)))
  }

  lemma {:induction false} ScatterJoins<T>(a: seq<T>, l: seq<nat>, v: seq<T>, m: seq<nat>, w: seq<T>)
    requires |l| == |v| && |m| == |w|
    requires (forall k :: 0 <= k < |l| ==> l[k] < |a|) && forall k :: 0 <= k < |m| ==> m[k] < |a|
    ensures Scatter(a, l + m, v + w) == Scatter(Scatter(a, l, v), m, w)
  {
    if m == [] {
      assert l + m == l && v + w == v;
    } else {
      var n := |m| - 1;
      assert (l + m)[..|l| + n] == l + m[..n] && (v + w)[..|l| + n] == v + w[..n];
      ScatterJoins(a, l, v, m[..n], w[..n]);
    }
  }

  /** It is the stores of the requests one after another. */
  lemma {:induction false} StoredNext<K, P>(o: Ops<K, P>, c: Cache<K, P>, raw: seq<K>, b: Batch<K, P>, n: nat)
    requires Ready(o, c, b) && RawReady(raw, b) && n < |b.spans|
    ensures var q, current := b.spans[n], Packed(b, n);
            && RawFits(raw, q.row) && q.start + |current| <= |q.row|
            && Stored(o, c, raw, b, n + 1) == StoreRaw(Stored(o, c, raw, b, n), q.row, q.start, current)
  {
    var q, current := b.spans[n], Packed(b, n);
    assert Fits(o, c, q.row, q.slot, q.start, current) && RawFits(raw, q.row);
    LocationsFit(o, c, raw, b, n);
    LocationsFit(o, c, raw, b, n + 1);
    var locs, all := Locations(o, c, b, n), Tokens(o, c, b, n);
    assert Locations(o, c, b, n + 1) == locs + q.row[q.start..q.start + |current|];
    assert Tokens(o, c, b, n + 1) == all + current;
    hide Ready, RawReady, Scatter, Keys, Locations, Tokens, Packed, Fits;
    KeysJoin(all, current);
    ScatterJoins(raw, locs, Keys(all), q.row[q.start..q.start + |current|], Keys(current));
  }

  lemma {:induction false} KeysJoin<K, P>(a: seq<Token<K, P>>, b: seq<Token<K, P>>)
    ensures Keys(a + b) == Keys(a) + Keys(b) && |Keys(a)| == |a| && |Keys(b)| == |b|
  {
  }

  // ----- A batch is a run of extends -----

  /** The batch describes live requests of `s`, each once, with all the tokens it adds. */
  ghost predicate Describes<K, P>(o: Ops<K, P>, s: State<K, P>, ids: seq<nat>, b: Batch<K, P>)
    requires Ready(o, s.cache, b)
  {
    && |ids| == |b.spans| && RawReady(s.raw, b)
    && (forall i, j :: 0 <= i < j < |ids| ==> ids[i] != ids[j])
    && (forall i :: 0 <= i < |ids| ==> SpanOf(o, s, ids[i], b.spans[i]) && b.spans[i].extend == |Packed(b, i)|)
  }

  ghost predicate SpanOf<K, P>(o: Ops<K, P>, s: State<K, P>, id: nat, q: Span)
  {
    && id in s.reqs && s.reqs[id].live
    && q.row == Row(s.reqs[id].pages, o.ratio) && q.slot == s.reqs[id].slot && q.start == |s.reqs[id].hist|
  }

  ghost function Extends<K, P>(ids: seq<nat>, b: Batch<K, P>, n: nat): seq<Step<K, P>>
    requires WellPacked(b) && n <= |ids| == |b.spans|
  {
    if n == 0 then [] else Extends(ids, b, n - 1) + [Extend(ids[n - 1], Packed(b, n - 1))]
  }

  lemma {:induction false} RunAppend<K, P>(o: Ops<K, P>, s: State<K, P>, steps: seq<Step<K, P>>, x: Step<K, P>)
    requires IsRun(o, s, steps) && Enabled(o, After(o, s, steps), x)
    ensures IsRun(o, s, steps + [x]) && After(o, s, steps + [x]) == Apply(o, After(o, s, steps), x)
    decreases |steps|
  {
    hide Enabled, Apply;
    var all := steps + [x];
    if steps == [] {
      assert all[1..] == [] && all[0] == x;
      assert After(o, Apply(o, s, x), all[1..]) == Apply(o, s, x);
    } else {
      assert all[1..] == steps[1..] + [x];
      RunAppend(o, Apply(o, s, steps[0]), steps[1..], x);
    }
  }

  lemma {:induction false} NothingAdded<K, P>(o: Ops<K, P>, c: Cache<K, P>, q: Span)
    requires Fits(o, c, q.row, q.slot, q.start, [])
    ensures Update(o, c, q.row, q.slot, q.start, []) == c
  {
    OpenIsBase(q.start, o.ratio);
  }

  function Longer<K, P>(q: Req<K, P>, tokens: seq<Token<K, P>>): Req<K, P> { q.(hist := q.hist + tokens) }

  /** `t` is `s` with the first `n` requests of the batch extended. */
  ghost predicate Followed<K, P>(o: Ops<K, P>, s: State<K, P>, ids: seq<nat>, b: Batch<K, P>, n: nat, t: State<K, P>)
    requires Ready(o, s.cache, b) && Describes(o, s, ids, b) && n <= |ids|
  {
    && t.cache == Folded(o, s.cache, b, n) && t.raw == Stored(o, s.cache, s.raw, b, n)
    && t.reqs.Keys == s.reqs.Keys
    && (forall i :: 0 <= i < |ids| ==> SpanOf(o, s, ids[i], b.spans[i]))
    && (forall i :: 0 <= i < |ids| ==>
        t.reqs[ids[i]] == if i < n then Longer(s.reqs[ids[i]], Packed(b, i)) else s.reqs[ids[i]])
    && (forall a :: a in s.reqs && a !in ids ==> t.reqs[a] == s.reqs[a])
  }

  lemma {:induction false} ExtendIsNext<K, P>(o: Ops<K, P>, s: State<K, P>, ids: seq<nat>, b: Batch<K, P>, n: nat,
        t: State<K, P>)
    requires Ready(o, s.cache, b) && Describes(o, s, ids, b) && n < |ids|
    requires t.cache == Folded(o, s.cache, b, n) && t.raw == Stored(o, s.cache, s.raw, b, n) && ids[n] in s.reqs &&
        ids[n] in t.reqs &&
        t.reqs[ids[n]] == s.reqs[ids[n]]
    ensures Enabled(o, t, Extend(ids[n], Packed(b, n)))
    ensures Apply(o, t, Extend(ids[n], Packed(b, n))) ==
            State(Folded(o, s.cache, b, n + 1), Stored(o, s.cache, s.raw, b, n + 1),
                t.reqs[ids[n] := Longer(s.reqs[ids[n]], Packed(b, n))])
  {
    hide Fits, Update, Row, Folded, Packed, Inv, HasGroups, Cut, Stored, StoreRaw;
    FoldedNext(o, s.cache, b, n);
    StoredNext(o, s.cache, s.raw, b, n);
    assert SpanOf(o, s, ids[n], b.spans[n]);
    hide Describes;
    assert WellPacked(b);
    if Packed(b, n) == [] { NothingAdded(o, t.cache, b.spans[n]); }
  }

  lemma {:induction false} FollowStep<K, P>(o: Ops<K, P>, s: State<K, P>, ids: seq<nat>, b: Batch<K, P>, n: nat,
        t: State<K, P>)
    requires Ready(o, s.cache, b) && Describes(o, s, ids, b) && n < |ids|
    requires Followed(o, s, ids, b, n, t)
    ensures Enabled(o, t, Extend(ids[n], Packed(b, n)))
    ensures Followed(o, s, ids, b, n + 1, Apply(o, t, Extend(ids[n], Packed(b, n))))
  {
    hide Fits, Update, Row, Folded, Stored, Packed, Ready, RawReady, Apply, Enabled, Longer;
    assert SpanOf(o, s, ids[n], b.spans[n]);
    ExtendIsNext(o, s, ids, b, n, t);
    hide SpanOf;
  }

  lemma {:induction false} ExtendsLast<K, P>(ids: seq<nat>, b: Batch<K, P>, n: nat)
    requires WellPacked(b) && 0 < n <= |ids| == |b.spans|
    ensures Extends(ids, b, n) == Extends(ids, b, n - 1) + [Extend(ids[n - 1], Packed(b, n - 1))]
  {
  }

  lemma {:induction false} NoneFollowed<K, P>(o: Ops<K, P>, s: State<K, P>, ids: seq<nat>, b: Batch<K, P>)
    requires Ready(o, s.cache, b) && Describes(o, s, ids, b)
    ensures WellPacked(b) && |ids| == |b.spans|
    ensures Extends(ids, b, 0) == [] && IsRun(o, s, []) && After(o, s, []) == s
    ensures Followed(o, s, ids, b, 0, s)
  {
    assert WellPacked(b) && |ids| == |b.spans|;
    hide SpanOf, Fits, Update, Packed, Ready;
  }

  /** The loop's cache is the cache of the run that extends the batch's requests one after another,
      so it keeps what every run keeps. */
  lemma {:induction false} BatchIsRun<K, P>(o: Ops<K, P>, s: State<K, P>, ids: seq<nat>, b: Batch<K, P>, n: nat)
    requires Ready(o, s.cache, b) && Describes(o, s, ids, b) && n <= |ids|
    ensures IsRun(o, s, Extends(ids, b, n)) && Followed(o, s, ids, b, n, After(o, s, Extends(ids, b, n)))
  {
    hide *;
    NoneFollowed(o, s, ids, b);
    if n != 0 {
      BatchIsRun(o, s, ids, b, n - 1);
      FollowStep(o, s, ids, b, n - 1, After(o, s, Extends(ids, b, n - 1)));
      RunAppend(o, s, Extends(ids, b, n - 1), Extend(ids[n - 1], Packed(b, n - 1)));
      ExtendsLast(ids, b, n);
    }
  }

  /** After a batch that describes running requests, each of them holds whole-history pooling of its
      history and the tokens it got, and so does every other request. */
  lemma {:induction false} BatchAgrees<K, P>(o: Ops<K, P>, s: State<K, P>, ids: seq<nat>, b: Batch<K, P>)
    requires Inv(o, s) && Ready(o, s.cache, b) && Describes(o, s, ids, b)
    ensures forall i :: 0 <= i < |ids| ==> Accepted(b, i)
    ensures forall i :: 0 <= i < |ids| ==> SpanOf(o, s, ids[i], b.spans[i])
    ensures var after := Folded(o, s.cache, b, |ids|);
            forall i :: 0 <= i < |ids| ==>
                Agrees(o, after, b.spans[i].row, b.spans[i].slot, s.reqs[ids[i]].hist + Packed(b, i))
    ensures forall a :: a in s.reqs && a !in ids ==> ReqInv(o, Folded(o, s.cache, b, |ids|), s.reqs[a])
    ensures var raw := Stored(o, s.cache, s.raw, b, |ids|);
            && (forall i :: 0 <= i < |ids| ==> RawAgrees(raw, b.spans[i].row, s.reqs[ids[i]].hist + Packed(b, i)))
            && forall a :: a in s.reqs && a !in ids ==> RawInv(o, raw, s.reqs[a])
  {
    var n := |ids|;
    BatchIsRun(o, s, ids, b, n);
    RunKeepsInv(o, s, Extends(ids, b, n));
    var t := After(o, s, Extends(ids, b, n));
    hide IsRun, After, Ready, Folded, Stored, Row, Packed, SharesComplete, RingAgrees, CompAgrees, RawAgrees;
    forall i | 0 <= i < n
      ensures SpanOf(o, s, ids[i], b.spans[i]) && Accepted(b, i)
      ensures Agrees(o, t.cache, b.spans[i].row, b.spans[i].slot, s.reqs[ids[i]].hist + Packed(b, i))
      ensures RawAgrees(t.raw, b.spans[i].row, s.reqs[ids[i]].hist + Packed(b, i))
    {
      assert SpanOf(o, s, ids[i], b.spans[i]);
      assert ReqInv(o, t.cache, t.reqs[ids[i]]) && RawInv(o, t.raw, t.reqs[ids[i]]);
    }
    forall a | a in s.reqs && a !in ids ensures ReqInv(o, t.cache, s.reqs[a]) && RawInv(o, t.raw, s.reqs[a]) {
      assert ReqInv(o, t.cache, t.reqs[a]) && RawInv(o, t.raw, t.reqs[a]);
    }
  }
}
