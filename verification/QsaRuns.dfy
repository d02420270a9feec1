/** Many requests over one index: pages are allocated, shared, freed and taken again, and request slots
    are reused, without anything ever being cleared. A cache is built either for compressed keys or for
    raw ones; the state has both, so that every run says what either holds. */
module QsaRuns {
  import opened Basics
  import opened GroupMath
  import opened QsaIndex
  import opened QsaGather
  import opened TopK

  /** A request, or a cached prefix of one that has finished (`live` false). A page is one group. */
  datatype Req<K, P> = Req(live: bool, slot: nat, pages: seq<nat>, hist: seq<Token<K, P>>)

  datatype State<K, P> = State(cache: Cache<K, P>, raw: seq<K>, reqs: map<nat, Req<K, P>>)

  datatype Step<K, P> =
    | Admit(id: nat, slot: nat, donor: nat, groups: nat)
    | Grow(id: nat, page: nat)
    | Extend(id: nat, tokens: seq<Token<K, P>>)
    | Finish(id: nat, groups: nat)
    | Evict(id: nat)

  /** The page-table row of a request: position `p` is token `p % ratio` of its page. */
  function Row(pages: seq<nat>, ratio: Pos): (row: seq<nat>)
    ensures |row| == Base(|pages|, ratio)
  {
    seq<nat>(Base(|pages|, ratio), p requires 0 <= p < Base(|pages|, ratio) =>
      (PageInside(p, |pages|, ratio); Base(pages[Groups(p, ratio)], ratio) + p % ratio))
  }

  lemma {:induction false} BaseInside(g: nat, n: nat, ratio: Pos)
    ensures Base(g, ratio) < Base(n, ratio) <==> g < n
  {
    BaseAscends(g, n, ratio);
    BaseAscends(n, g, ratio);
  }

  /** A group's compressed row is its page. */
  lemma {:induction false} RowIsPage(pages: seq<nat>, g: nat, ratio: Pos)
    ensures Base(g, ratio) < Base(|pages|, ratio) <==> g < |pages|
    ensures g < |pages| ==> RowOf(Row(pages, ratio), g, ratio) == pages[g]
  {
    BaseInside(g, |pages|, ratio);
    if g < |pages| {
      GroupsOfBase(g, ratio);
      OpenIsBase(Base(g, ratio), ratio);
      DivBack(pages[g], 0, ratio);
    }
  }

  // ----- Steps -----

  predicate HasGroups<K, P>(o: Ops<K, P>, q: Req<K, P>, groups: nat)
  {
    groups <= Groups(|q.hist|, o.ratio) && groups <= |q.pages|
  }

  predicate Enabled<K, P>(o: Ops<K, P>, s: State<K, P>, step: Step<K, P>)
  {
    match step
    case Admit(id, slot, donor, groups) =>
      && id !in s.reqs
      && Base(slot, o.ratio) + o.ratio <= |s.cache.ring|
      && (forall b :: b in s.reqs && s.reqs[b].live ==> s.reqs[b].slot != slot)
      && (groups == 0 || (donor in s.reqs && HasGroups(o, s.reqs[donor], groups)))
    case Grow(id, page) =>
      id in s.reqs && s.reqs[id].live && page < |s.cache.comp| && forall b :: b in s.reqs ==> page !in s.reqs[b].pages
    case Extend(id, tokens) =>
      id in s.reqs && s.reqs[id].live &&
      Fits(o, s.cache, Row(s.reqs[id].pages, o.ratio), s.reqs[id].slot, |s.reqs[id].hist|, tokens) &&
      RawFits(s.raw, Row(s.reqs[id].pages, o.ratio))
    case Finish(id, groups) =>
      id in s.reqs && s.reqs[id].live && HasGroups(o, s.reqs[id], groups)
    case Evict(id) => id in s.reqs && !s.reqs[id].live
  }

  /** The first `groups` complete groups of a request. */
  function Cut<K, P>(o: Ops<K, P>, q: Req<K, P>, live: bool, slot: nat, groups: nat): Req<K, P>
    requires HasGroups(o, q, groups)
  {
    GroupInside(groups, |q.hist|, o.ratio);
    Req(live, slot, q.pages[..groups], q.hist[..Base(groups, o.ratio)])
  }

  function Apply<K, P>(o: Ops<K, P>, s: State<K, P>, step: Step<K, P>): State<K, P>
    requires Enabled(o, s, step)
  {
    match step
    case Admit(id, slot, donor, groups) =>
      var q := if groups == 0 then Req(true, slot, [], []) else
        Cut(o, s.reqs[donor], true, slot, groups);
      s.(reqs := s.reqs[id := q])
    case Grow(id, page) =>
      s.(reqs := s.reqs[id := s.reqs[id].(pages := s.reqs[id].pages + [page])])
    case Extend(id, tokens) =>
      var q := s.reqs[id];
      State(Update(o, s.cache, Row(q.pages, o.ratio), q.slot, |q.hist|, tokens),
          StoreRaw(s.raw, Row(q.pages, o.ratio), |q.hist|, tokens), s.reqs[id := q.(hist := q.hist + tokens)])
    case Finish(id, groups) =>
      s.(reqs := s.reqs[id := Cut(o, s.reqs[id], false, s.reqs[id].slot, groups)])
    case Evict(id) => s.(reqs := s.reqs - {id})
  }

  // ----- Invariant -----

  /** One request by itself: its pages differ and exist, its groups are in the index, and while it
      runs its tail is in the ring. */
  ghost predicate ReqInv<K, P>(o: Ops<K, P>, c: Cache<K, P>, q: Req<K, P>)
  {
    && |q.hist| <= Base(|q.pages|, o.ratio)
    && (forall i, j :: 0 <= i < j < |q.pages| ==> q.pages[i] != q.pages[j])
    && (forall i :: 0 <= i < |q.pages| ==> q.pages[i] < |c.comp|)
    && CompAgrees(o, c.comp, Row(q.pages, o.ratio), q.hist)
    && (q.live ==> RingAgrees(o, c.ring, q.slot, q.hist))
  }

  /** Its tokens' raw keys are at their locations. */
  ghost predicate RawInv<K, P>(o: Ops<K, P>, raw: seq<K>, q: Req<K, P>)
  {
    RawAgrees(raw, Row(q.pages, o.ratio), q.hist)
  }

  /** Two requests meet only in pages that are complete groups of both. */
  ghost predicate SharesComplete<K, P>(o: Ops<K, P>, a: Req<K, P>, b: Req<K, P>)
  {
    forall i, j :: 0 <= i < |a.pages| && 0 <= j < |b.pages| && a.pages[i] == b.pages[j] ==>
      i < Groups(|a.hist|, o.ratio) && j < Groups(|b.hist|, o.ratio)
  }

  ghost predicate Inv<K, P>(o: Ops<K, P>, s: State<K, P>)
  {
    && (forall a :: a in s.reqs ==> ReqInv(o, s.cache, s.reqs[a]) && RawInv(o, s.raw, s.reqs[a]))
    && (forall a, b :: a in s.reqs && b in s.reqs && a != b ==> SharesComplete(o, s.reqs[a], s.reqs[b]))
    && (forall a, b :: a in s.reqs && b in s.reqs && a != b && s.reqs[a].live && s.reqs[b].live ==>
        s.reqs[a].slot != s.reqs[b].slot)
  }

  lemma {:induction false} PagesApart(pages: seq<nat>, ratio: Pos)
    requires forall i, j :: 0 <= i < j < |pages| ==> pages[i] != pages[j]
    ensures RowsApart(Row(pages, ratio), ratio)
  {
    var row := Row(pages, ratio);
    forall g: nat, h: nat | g != h && Base(g, ratio) < |row| && Base(h, ratio) < |row|
      ensures RowOf(row, g, ratio) != RowOf(row, h, ratio)
    {
      RowIsPage(pages, g, ratio);
      RowIsPage(pages, h, ratio);
    }
  }

  // ----- Isolation -----

  /** An update of one request changes no ring place of another slot. */
  lemma {:induction false} OtherRingKept<K, P>(o: Ops<K, P>, ring: seq<Token<K, P>>, slot: nat, start: nat,
        current: seq<Token<K, P>>, other: nat, p: nat)
    requires SlotInRing(o, ring, slot) && SlotInRing(o, ring, other) && slot != other
    ensures RingLoc(other, p, o.ratio) < |ring|
    ensures UpdateRing(o, ring, slot, start, current)[RingLoc(other, p, o.ratio)] == ring[RingLoc(other, p, o.ratio)]
  {
    var stop := start + |current|;
    var tail := TailStart(start, stop, o.ratio);
    RingLocsFit(slot, tail, stop, o.ratio, |ring|);
    RingInSlot(other, p, o.ratio);
    BaseAscends(slot, other, o.ratio);
    BaseAscends(other, slot, o.ratio);
    hide Base, RingLoc, OpenStart, Scatter;
    ScatterMisses(ring, RingLocs(slot, tail, stop, o.ratio), current[tail - start..], RingLoc(other, p, o.ratio));
  }

  /** An update changes only the rows of pages its request's new groups own. */
  lemma {:induction false} OtherRowKept<K, P>(o: Ops<K, P>, c: Cache<K, P>, pages: seq<nat>, slot: nat, start: nat,
        current: seq<Token<K, P>>, x: nat)
    requires Fits(o, c, Row(pages, o.ratio), slot, start, current)
    requires x < |c.comp|
    requires forall i :: Groups(start, o.ratio) <= i < |pages| ==> pages[i] != x
    ensures UpdateComp(o, c, Row(pages, o.ratio), slot, start, current)[x] == c.comp[x]
  {
    var r, row, stop := o.ratio, Row(pages, o.ratio), start + |current|;
    var from, to := Groups(start, r), Groups(stop, r);
    GroupsAscend(start, stop, r);
    OpenIsBase(stop, r);
    LocsFit(row, from, to, r, |c.comp|);
    var locs, vals := CompLocs(row, from, to, r), CompVals(o, c.ring, slot, start, current, from, to);
    forall k | 0 <= k < |locs| ensures locs[k] != x {
      BaseAscends(from + k, to, r);
      RowIsPage(pages, from + k, r);
    }
    hide Base, Groups, OpenStart, Scatter, Row, CompLocs, CompVals;
    ScatterMisses(c.comp, locs, vals, x);
  }

  /** A request other than the extended one keeps its groups and its tail. */
  lemma {:induction false} OtherRequestKept<K, P>(
        o: Ops<K, P>, c: Cache<K, P>, a: Req<K, P>, current: seq<Token<K, P>>, b: Req<K, P>)
    requires Fits(o, c, Row(a.pages, o.ratio), a.slot, |a.hist|, current)
    requires ReqInv(o, c, b) && SharesComplete(o, a, b) && (b.live ==> a.slot != b.slot)
    ensures ReqInv(o, Update(o, c, Row(a.pages, o.ratio), a.slot, |a.hist|, current), b)
  {
    var r := o.ratio;
    var after := Update(o, c, Row(a.pages, r), a.slot, |a.hist|, current);
    hide UpdateComp, UpdateRing, Base, Groups, OpenStart, RingLoc, Row, RowOf;
    forall g: nat | g < Groups(|b.hist|, r) ensures GroupAgrees(o, after.comp, Row(b.pages, r), b.hist, g) {
      assert GroupAgrees(o, c.comp, Row(b.pages, r), b.hist, g);
      RowIsPage(b.pages, g, r);
      BaseAscends(g, g + 1, r);
      OtherRowKept(o, c, a.pages, a.slot, |a.hist|, current, b.pages[g]);
    }
    if b.live {
      forall p | OpenStart(|b.hist|, r) <= p < |b.hist|
        ensures RingLoc(b.slot, p, r) < |c.ring| && after.ring[RingLoc(b.slot, p, r)] == b.hist[p]
      {
        RingInSlot(b.slot, p, r);
        OtherRingKept(o, c.ring, a.slot, |a.hist|, current, b.slot, p);
      }
    }
  }

  /** The complete groups a request leaves behind, or hands to another, are in the index as they are. */
  lemma {:induction false} CutKept<K, P>(o: Ops<K, P>, c: Cache<K, P>, q: Req<K, P>, live: bool, slot: nat, groups: nat)
    requires ReqInv(o, c, q) && HasGroups(o, q, groups)
    requires live ==> SlotInRing(o, c.ring, slot)
    ensures ReqInv(o, c, Cut(o, q, live, slot, groups)) &&
        Groups(|Cut(o, q, live, slot, groups).hist|, o.ratio) == groups
  {
    var r, cut := o.ratio, Cut(o, q, live, slot, groups);
    GroupInside(groups, |q.hist|, r);
    GroupsOfBase(groups, r);
    assert q.hist == cut.hist + q.hist[Base(groups, r)..];
    hide Base, Groups, OpenStart, Row, RowOf, Pooled;
    forall g: nat | g < groups ensures GroupAgrees(o, c.comp, Row(cut.pages, r), cut.hist, g) {
      assert GroupAgrees(o, c.comp, Row(q.pages, r), q.hist, g);
      RowIsPage(q.pages, g, r);
      RowIsPage(cut.pages, g, r);
      BaseAscends(g, g + 1, r);
      GroupInside(g, |cut.hist|, r);
      PooledKept(o, cut.hist, q.hist[Base(groups, r)..], Base(g, r));
    }
  }

  lemma {:induction false} ExtendedKept<K, P>(o: Ops<K, P>, s: State<K, P>, id: nat, tokens: seq<Token<K, P>>)
    requires Inv(o, s) && Enabled(o, s, Extend(id, tokens))
    ensures ReqInv(o, Apply(o, s, Extend(id, tokens)).cache, Apply(o, s, Extend(id, tokens)).reqs[id])
  {
    var q := s.reqs[id];
    assert ReqInv(o, s.cache, q);
    PagesApart(q.pages, o.ratio);
    hide Update, Row, RowsApart, Fits, Base;
    UpdateKeepsAgreement(o, s.cache, Row(q.pages, o.ratio), q.slot, q.hist, tokens);
  }

  /** A new page widens the row and changes nothing else. */
  lemma {:induction false} GrownKept<K, P>(o: Ops<K, P>, c: Cache<K, P>, q: Req<K, P>, page: nat)
    requires ReqInv(o, c, q) && page !in q.pages && page < |c.comp|
    ensures ReqInv(o, c, q.(pages := q.pages + [page]))
  {
    var r, wide := o.ratio, q.pages + [page];
    BaseAscends(|q.pages|, |wide|, r);
    hide Base, Groups, OpenStart, Row, RowOf, Pooled;
    forall g: nat | g < Groups(|q.hist|, r) ensures GroupAgrees(o, c.comp, Row(wide, r), q.hist, g) {
      assert GroupAgrees(o, c.comp, Row(q.pages, r), q.hist, g);
      RowIsPage(q.pages, g, r);
      RowIsPage(wide, g, r);
      BaseAscends(g, g + 1, r);
    }
  }

  // ----- Every run -----

  lemma {:induction false} StepKeepsInv<K, P>(o: Ops<K, P>, s: State<K, P>, step: Step<K, P>)
    requires Inv(o, s) && Enabled(o, s, step)
    ensures Inv(o, Apply(o, s, step))
  {
    var t := Apply(o, s, step);
    SlotsStep(o, s, step);
    hide Enabled, Apply;
    forall a | a in t.reqs ensures ReqInv(o, t.cache, t.reqs[a]) && RawInv(o, t.raw, t.reqs[a]) {
      RequestStep(o, s, step, a);
      RawStep(o, s, step, a);
    }
    forall a, b | a in t.reqs && b in t.reqs && a != b ensures SharesComplete(o, t.reqs[a], t.reqs[b]) {
      SharingStep(o, s, step, a, b);
    }
  }

  lemma {:induction false} SlotsStep<K, P>(o: Ops<K, P>, s: State<K, P>, step: Step<K, P>)
    requires Inv(o, s) && Enabled(o, s, step)
    ensures var t := Apply(o, s, step);
            forall a, b :: a in t.reqs && b in t.reqs && a != b && t.reqs[a].live && t.reqs[b].live ==>
                t.reqs[a].slot != t.reqs[b].slot
  {
    hide Update, Row, Base, Groups, Fits, ReqInv, SharesComplete, HasGroups;
  }

  lemma {:induction false} RequestStep<K, P>(o: Ops<K, P>, s: State<K, P>, step: Step<K, P>, a: nat)
    requires Inv(o, s) && Enabled(o, s, step) && a in Apply(o, s, step).reqs
    ensures ReqInv(o, Apply(o, s, step).cache, Apply(o, s, step).reqs[a])
  {
    hide Update, Row, Base, Groups, Cut, Fits, ReqInv, SharesComplete;
    if a in s.reqs { assert ReqInv(o, s.cache, s.reqs[a]); }
    match step
    case Admit(id, slot, donor, groups) =>
      if a == id {
        if groups == 0 {
          NewIsEmpty(o, s.cache, slot);
        } else {
          CutKept(o, s.cache, s.reqs[donor], true, slot, groups);
        }
      }
    case Grow(id, page) =>
      if a == id { GrownKept(o, s.cache, s.reqs[id], page); }
    case Extend(id, tokens) =>
      if a == id {
        ExtendedKept(o, s, id, tokens);
      } else {
        OtherRequestKept(o, s.cache, s.reqs[id], tokens, s.reqs[a]);
      }
    case Finish(id, groups) =>
      if a == id {
        CutKept(o, s.cache, s.reqs[id], false, s.reqs[id].slot, groups);
      }
    case Evict(id) =>
  }

  // ----- Raw keys -----

  /** Positions of two requests meet in one location only on one page, at one place of it. */
  lemma {:induction false} LocationsMeet(a: seq<nat>, b: seq<nat>, p: nat, q: nat, ratio: Pos)
    requires p < Base(|a|, ratio) && q < Base(|b|, ratio)
    ensures Groups(p, ratio) < |a| && Groups(q, ratio) < |b|
    ensures Row(a, ratio)[p] == Row(b, ratio)[q] ==>
        a[Groups(p, ratio)] == b[Groups(q, ratio)] && p % ratio == q % ratio
  {
    PageInside(p, |a|, ratio);
    PageInside(q, |b|, ratio);
    DivBack(a[Groups(p, ratio)], p % ratio, ratio);
    DivBack(b[Groups(q, ratio)], q % ratio, ratio);
  }

  lemma {:induction false} LocationsDiffer(pages: seq<nat>, p: nat, q: nat, ratio: Pos)
    requires forall i, j :: 0 <= i < j < |pages| ==> pages[i] != pages[j]
    requires p < q < Base(|pages|, ratio)
    ensures Row(pages, ratio)[p] != Row(pages, ratio)[q]
  {
    LocationsMeet(pages, pages, p, q, ratio);
    OpenIsBase(p, ratio);
    OpenIsBase(q, ratio);
  }

  /** Pages in front keep their places in the row. */
  lemma {:induction false} RowPrefix(a: seq<nat>, b: seq<nat>, ratio: Pos)
    requires a <= b
    ensures Row(a, ratio) <= Row(b, ratio)
  {
    BaseAscends(|a|, |b|, ratio);
    forall p | 0 <= p < Base(|a|, ratio) ensures Row(a, ratio)[p] == Row(b, ratio)[p] {
      PageInside(p, |a|, ratio);
    }
  }

  lemma {:induction false} RawStep<K, P>(o: Ops<K, P>, s: State<K, P>, step: Step<K, P>, a: nat)
    requires Inv(o, s) && Enabled(o, s, step) && a in Apply(o, s, step).reqs
    ensures RawInv(o, Apply(o, s, step).raw, Apply(o, s, step).reqs[a])
  {
    hide Update, Row, Base, Groups, Cut, Fits, StoreRaw, RawInv, SharesComplete;
    if a in s.reqs { assert ReqInv(o, s.cache, s.reqs[a]) && RawInv(o, s.raw, s.reqs[a]); }
    match step
    case Admit(id, slot, donor, groups) =>
      if a == id {
        if groups == 0 {
          RawNew(o, s.raw, slot);
        } else {
          assert ReqInv(o, s.cache, s.reqs[donor]);
          RawCut(o, s.raw, s.reqs[donor], true, slot, groups);
        }
      }
    case Grow(id, page) =>
      if a == id { RawGrown(o, s.raw, s.reqs[id], page); }
    case Extend(id, tokens) =>
      if a == id {
        RawExtended(o, s, id, tokens);
      } else {
        RawOther(o, s, id, tokens, a);
      }
    case Finish(id, groups) =>
      if a == id { RawCut(o, s.raw, s.reqs[id], false, s.reqs[id].slot, groups); }
    case Evict(id) =>
  }

  lemma {:induction false} RawNew<K, P>(o: Ops<K, P>, raw: seq<K>, slot: nat)
    ensures RawInv(o, raw, Req(true, slot, [], []))
  {
  }

  lemma {:induction false} RawCut<K, P>(o: Ops<K, P>, raw: seq<K>, q: Req<K, P>, live: bool, slot: nat, groups: nat)
    requires RawInv(o, raw, q) && HasGroups(o, q, groups)
    ensures RawInv(o, raw, Cut(o, q, live, slot, groups))
  {
    GroupInside(groups, |q.hist|, o.ratio);
    RowPrefix(q.pages[..groups], q.pages, o.ratio);
  }

  lemma {:induction false} RawGrown<K, P>(o: Ops<K, P>, raw: seq<K>, q: Req<K, P>, page: nat)
    requires RawInv(o, raw, q)
    ensures RawInv(o, raw, q.(pages := q.pages + [page]))
  {
    RowPrefix(q.pages, q.pages + [page], o.ratio);
  }

  lemma {:induction false} RawExtended<K, P>(o: Ops<K, P>, s: State<K, P>, id: nat, tokens: seq<Token<K, P>>)
    requires Inv(o, s) && Enabled(o, s, Extend(id, tokens))
    ensures RawInv(o, Apply(o, s, Extend(id, tokens)).raw, Apply(o, s, Extend(id, tokens)).reqs[id])
  {
    var q := s.reqs[id];
    assert ReqInv(o, s.cache, q) && RawInv(o, s.raw, q);
    var row := Row(q.pages, o.ratio);
    forall i, j | 0 <= i < j < |row| ensures row[i] != row[j] { LocationsDiffer(q.pages, i, j, o.ratio); }
    hide Row, Update;
    RawKeepsAgreement(s.raw, row, q.hist, tokens);
  }

  /** What one request stores is at places of unfinished pages, where no other request has a token. */
  lemma {:induction false} RawOther<K, P>(o: Ops<K, P>, s: State<K, P>, id: nat, tokens: seq<Token<K, P>>, b: nat)
    requires Inv(o, s) && Enabled(o, s, Extend(id, tokens)) && b in s.reqs && b != id
    ensures RawInv(o, Apply(o, s, Extend(id, tokens)).raw, s.reqs[b])
  {
    var q, other, r := s.reqs[id], s.reqs[b], o.ratio;
    assert ReqInv(o, s.cache, other) && RawInv(o, s.raw, other) && SharesComplete(o, q, other);
    var mine, theirs := Row(q.pages, r), Row(other.pages, r);
    forall p, x | 0 <= p < |other.hist| && |q.hist| <= x < |q.hist| + |tokens| ensures mine[x] != theirs[p] {
      LocationsMeet(q.pages, other.pages, x, p, r);
      GroupsAscend(|q.hist|, x, r);
    }
    hide Row, Update;
    RawOthersKept(s.raw, theirs, other.hist, mine, |q.hist|, tokens);
  }

  lemma {:induction false} NewIsEmpty<K, P>(o: Ops<K, P>, c: Cache<K, P>, slot: nat)
    requires SlotInRing(o, c.ring, slot)
    ensures ReqInv(o, c, Req(true, slot, [], []))
  {
    GroupsOfBase(0, o.ratio);
  }

  /** What is handed over meets every request in complete groups only, the donor included. */
  lemma {:induction false} CutShares<K, P>(o: Ops<K, P>, s: State<K, P>, donor: nat, live: bool, slot: nat,
        groups: nat, b: nat)
    requires Inv(o, s) && donor in s.reqs && b in s.reqs
    requires HasGroups(o, s.reqs[donor], groups)
    ensures SharesComplete(o, Cut(o, s.reqs[donor], live, slot, groups), s.reqs[b])
    ensures SharesComplete(o, s.reqs[b], Cut(o, s.reqs[donor], live, slot, groups))
  {
    GroupInside(groups, |s.reqs[donor].hist|, o.ratio);
    GroupsOfBase(groups, o.ratio);
    assert ReqInv(o, s.cache, s.reqs[donor]);
    if b != donor {
      assert SharesComplete(o, s.reqs[donor], s.reqs[b]);
    }
  }

  lemma {:induction false} SharingStep<K, P>(o: Ops<K, P>, s: State<K, P>, step: Step<K, P>, a: nat, b: nat)
    requires Inv(o, s) && Enabled(o, s, step)
    requires a in Apply(o, s, step).reqs && b in Apply(o, s, step).reqs && a != b
    ensures SharesComplete(o, Apply(o, s, step).reqs[a], Apply(o, s, step).reqs[b])
  {
    hide Update, Row, Base, OpenStart, Fits, ReqInv;
    var t, r := Apply(o, s, step), o.ratio;
    if a in s.reqs && b in s.reqs {
      assert SharesComplete(o, s.reqs[a], s.reqs[b]);
    }
    match step
    case Admit(id, slot, donor, groups) =>
      if 0 < groups && (a == id || b == id) {
        CutShares(o, s, donor, true, slot, groups, if a == id then b else a);
        hide Cut, SharesComplete;
      }
    case Grow(id, page) =>
    case Extend(id, tokens) =>
      GroupsAscend(|s.reqs[id].hist|, |t.reqs[id].hist|, r);
    case Finish(id, groups) =>
      if a == id || b == id {
        CutShares(o, s, id, false, s.reqs[id].slot, groups, if a == id then b else a);
      }
    case Evict(id) =>
  }

  /** A new request may take over any number of complete groups of one that has their pages, and then has
      those pages and that many groups of its history. */
  lemma {:induction false} AdmitShares<K, P>(o: Ops<K, P>, s: State<K, P>, id: nat, slot: nat, donor: nat, groups: nat)
    requires id !in s.reqs && donor in s.reqs && slot * o.ratio + o.ratio <= |s.cache.ring|
    requires forall b :: b in s.reqs && s.reqs[b].live ==> s.reqs[b].slot != slot
    requires groups <= |s.reqs[donor].pages| && groups * o.ratio <= |s.reqs[donor].hist|
    ensures Enabled(o, s, Admit(id, slot, donor, groups))
    ensures var t, d := Apply(o, s, Admit(id, slot, donor, groups)), s.reqs[donor];
      && t.reqs == s.reqs[id := Req(true, slot, d.pages[..groups], d.hist[..groups * o.ratio])]
      && t.cache == s.cache && t.raw == s.raw
  {
    GroupInside(groups, |s.reqs[donor].hist|, o.ratio);
    assert Base(groups, o.ratio) == groups * o.ratio && Base(slot, o.ratio) == slot * o.ratio;
  }

  predicate IsRun<K, P>(o: Ops<K, P>, s: State<K, P>, steps: seq<Step<K, P>>)
    decreases |steps|
  {
    steps == [] || (Enabled(o, s, steps[0]) && IsRun(o, Apply(o, s, steps[0]), steps[1..]))
  }

  function After<K, P>(o: Ops<K, P>, s: State<K, P>, steps: seq<Step<K, P>>): State<K, P>
    requires IsRun(o, s, steps)
    decreases |steps|
  {
    if steps == [] then s else After(o, Apply(o, s, steps[0]), steps[1..])
  }

  lemma {:induction false} RunKeepsInv<K, P>(o: Ops<K, P>, s: State<K, P>, steps: seq<Step<K, P>>)
    requires Inv(o, s) && IsRun(o, s, steps)
    ensures Inv(o, After(o, s, steps))
    decreases |steps|
  {
    if steps != [] {
      StepKeepsInv(o, s, steps[0]);
      RunKeepsInv(o, Apply(o, s, steps[0]), steps[1..]);
    }
  }

  /** Whatever the caches held at first, and however requests were cut into extends, interleaved, ended
      and replaced since: every request's row holds whole-history pooling and its tail is in the ring, or,
      in a raw cache, each of its keys is at its location. */
  lemma {:induction false} EveryRunAgrees<K, P>(o: Ops<K, P>, stale: Cache<K, P>, dirty: seq<K>,
        steps: seq<Step<K, P>>, id: nat)
    requires IsRun(o, State(stale, dirty, map[]), steps)
    requires id in After(o, State(stale, dirty, map[]), steps).reqs
    ensures var s := After(o, State(stale, dirty, map[]), steps); var q := s.reqs[id];
            && CompAgrees(o, s.cache.comp, Row(q.pages, o.ratio), q.hist)
            && (q.live ==> Agrees(o, s.cache, Row(q.pages, o.ratio), q.slot, q.hist))
            && RawAgrees(s.raw, Row(q.pages, o.ratio), q.hist)
  {
    RunKeepsInv(o, State(stale, dirty, map[]), steps);
    var s := After(o, State(stale, dirty, map[]), steps);
    assert ReqInv(o, s.cache, s.reqs[id]) && RawInv(o, s.raw, s.reqs[id]);
  }

  /** No step resizes a cache. */
  lemma {:induction false} RunKeepsSizes<K, P>(o: Ops<K, P>, s: State<K, P>, steps: seq<Step<K, P>>)
    requires IsRun(o, s, steps)
    ensures |After(o, s, steps).raw| == |s.raw| && |After(o, s, steps).cache.comp| == |s.cache.comp|
    decreases |steps|
  {
    hide Enabled, Row, Update, StoreRaw, Cut;
    if steps != [] {
      SameSizes(o, s, steps[0]);
      hide Apply;
      RunKeepsSizes(o, Apply(o, s, steps[0]), steps[1..]);
    }
  }

  lemma {:induction false} SameSizes<K, P>(o: Ops<K, P>, s: State<K, P>, step: Step<K, P>)
    requires Enabled(o, s, step)
    ensures |Apply(o, s, step).raw| == |s.raw| && |Apply(o, s, step).cache.comp| == |s.cache.comp|
  {
  }

  /** Pages that the compressed slab has are in a raw slab of as many pages. */
  lemma {:induction false} PagesFit<K>(raw: seq<K>, pages: seq<nat>, n: nat, ratio: Pos)
    requires Base(n, ratio) <= |raw| && forall i :: 0 <= i < |pages| ==> pages[i] < n
    ensures RawFits(raw, Row(pages, ratio))
  {
    forall p | 0 <= p < Base(|pages|, ratio) ensures Row(pages, ratio)[p] < |raw| {
      PageInside(p, |pages|, ratio);
      BaseAscends(pages[Groups(p, ratio)], n, ratio);
    }
  }

  /** After any run, any query of a request selects alike from the compressed index and from the raw keys
      when the request's groups start at their own indices, as they do in text. */
  lemma {:induction false} EveryRunSelectsAlike<K(!new), P(!new)>(
      o: Ops<K, P>, stale: Cache<K, P>, dirty: seq<K>, steps: seq<Step<K, P>>, id: nat, at: nat -> P, pos: nat,
      topA: (seq<Score>, nat) -> seq<nat>, topB: (seq<Score>, nat) -> seq<nat>, score: K -> Score, k: nat)
      returns (t: seq<nat>, u: seq<nat>)
    requires IsRun(o, State(stale, dirty, map[]), steps)
    requires id in After(o, State(stale, dirty, map[]), steps).reqs
    requires var s := After(o, State(stale, dirty, map[]), steps); var q := s.reqs[id];
             TextOnly(q.hist, at) || StartsMatch(q.hist, at, o.ratio)
    requires Base(|stale.comp|, o.ratio) <= |dirty|
    requires Lawful(topA) && Lawful(topB) && forall key: K :: score(key).Fin?
    ensures var s := After(o, State(stale, dirty, map[]), steps); var q := s.reqs[id];
            var row, n, blocks := Row(q.pages, o.ratio), |q.hist|, PaddedGroups(|q.hist|, o.ratio);
            && Reads(o, s.cache, row, n) && RawReads(s.raw, row, blocks, o.ratio)
            && SelectedAlike(topA, topB, score, Gather(o, s.cache, row, n), RawBranch(o, s.raw, row, blocks, at),
                Complete(pos, n, o.ratio), k, t, u)
  {
    RunKeepsInv(o, State(stale, dirty, map[]), steps);
    var s := After(o, State(stale, dirty, map[]), steps);
    var q := s.reqs[id];
    assert ReqInv(o, s.cache, q) && RawInv(o, s.raw, q);
    RunKeepsSizes(o, State(stale, dirty, map[]), steps);
    PagesFit(s.raw, q.pages, |s.cache.comp|, o.ratio);
    PaddedFits(|q.hist|, |q.pages|, o.ratio);
    hide IsRun, After, Row, CompAgrees, RawAgrees, Inv;
    if TextOnly(q.hist, at) { TextMatches(q.hist, at, o.ratio); }
    AtMostOneMore(|q.hist|, o.ratio);
    t, u := QuerySelectsAlike(o, s.cache, s.raw, Row(q.pages, o.ratio), q.hist, PaddedGroups(|q.hist|, o.ratio), at,
        pos, topA, topB, score, k);
  }

  lemma {:induction false} PaddedFits(n: nat, pages: nat, ratio: Pos)
    requires n <= Base(pages, ratio)
    ensures Base(PaddedGroups(n, ratio), ratio) <= Base(pages, ratio)
  {
    GroupInside(pages + 1, n + ratio - 1, ratio);
    BaseAscends(pages, pages + 1, ratio);
    BaseAscends(PaddedGroups(n, ratio), pages, ratio);
  }
}
