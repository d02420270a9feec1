/** The pooled keys the selection scores: gathered from the compressed index, or pooled anew from the
    raw keys. */
module QsaGather {
  import opened Basics
  import opened GroupMath
  import opened QsaIndex
  import opened TopK

  // ----- The compressed branch -----

  predicate Reads<K, P>(o: Ops<K, P>, c: Cache<K, P>, row: seq<nat>, n: nat) {
    && n <= |row|
    && forall g: nat :: g < Groups(n, o.ratio) ==> (GroupInside(g, n, o.ratio); RowOf(row, g, o.ratio) < |c.comp|)
  }

  /** The rows of the complete groups of `n` tokens. */
  function Gather<K, P>(o: Ops<K, P>, c: Cache<K, P>, row: seq<nat>, n: nat): (r: seq<K>)
    requires Reads(o, c, row, n)
    ensures |r| == Groups(n, o.ratio)
  {
    seq(Groups(n, o.ratio), g requires 0 <= g < Groups(n, o.ratio) =>
      (GroupInside(g, n, o.ratio); c.comp[RowOf(row, g, o.ratio)]))
  }

  // ----- The raw branch -----

  /** Blocks in the width padded up to whole groups. */
  function PaddedGroups(n: nat, ratio: Pos): nat
  {
    Groups(n + ratio - 1, ratio)
  }

  lemma {:induction false} AtMostOneMore(n: nat, ratio: Pos)
    ensures Groups(n, ratio) <= PaddedGroups(n, ratio) <= Groups(n, ratio) + 1
    ensures PaddedGroups(n, ratio) == Groups(n, ratio) <==> OpenStart(n, ratio) == n
    ensures n <= Base(PaddedGroups(n, ratio), ratio)
  {
    var q := Groups(n, ratio);
    OpenIsBase(n, ratio);
    GroupInside(q, n + ratio - 1, ratio);
    GroupInside(q + 1, n + ratio - 1, ratio);
    BaseAscends(q, q + 1, ratio);
    BaseAscends(q + 1, q + 2, ratio);
  }

  /** The locations of a page-table row exist. */
  predicate RawFits<K>(raw: seq<K>, row: seq<nat>) {
    forall p :: 0 <= p < |row| ==> row[p] < |raw|
  }

  /** The page-table row covers the blocks, and its locations exist. */
  predicate RawReads<K>(raw: seq<K>, row: seq<nat>, blocks: nat, ratio: Pos) {
    Base(blocks, ratio) <= |row| && RawFits(raw, row)
  }

  /** The raw keys of block `g`, whatever is at its locations. */
  function RawBlock<K>(raw: seq<K>, row: seq<nat>, g: nat, ratio: Pos): (r: seq<K>)
    requires Base(g, ratio) + ratio <= |row| && RawFits(raw, row)
    ensures |r| == ratio
  {
    seq(ratio, i requires 0 <= i < ratio => raw[row[Base(g, ratio) + i]])
  }

  /** All blocks of the gathered width pooled anew, each transformed at the index of its first token. */
  function RawBranch<K, P>(o: Ops<K, P>, raw: seq<K>, row: seq<nat>, blocks: nat, at: nat -> P): (r: seq<K>)
    requires RawReads(raw, row, blocks, o.ratio)
    ensures |r| == blocks
  {
    seq(blocks, g requires 0 <= g < blocks =>
      (BaseAscends(g, blocks, o.ratio);
       o.transform(o.pool(RawBlock(raw, row, g, o.ratio)), at(Base(g, o.ratio)))))
  }

  /** The raw keys after those of new tokens are stored at their locations. */
  function StoreRaw<K, P>(raw: seq<K>, row: seq<nat>, start: nat, current: seq<Token<K, P>>): (r: seq<K>)
    requires RawFits(raw, row) && start + |current| <= |row|
    ensures |r| == |raw|
  {
    Scatter(raw, row[start..start + |current|], Keys(current))
  }

  /** Each token's raw key is at its location. */
  ghost predicate RawAgrees<K, P>(raw: seq<K>, row: seq<nat>, hist: seq<Token<K, P>>) {
    && |hist| <= |row|
    && forall p :: 0 <= p < |hist| ==> row[p] < |raw| && raw[row[p]] == hist[p].key
  }

  /** Storing the keys of new tokens at their locations keeps that, when locations differ. */
  lemma {:induction false} RawKeepsAgreement<K, P>(
        raw: seq<K>, row: seq<nat>, hist: seq<Token<K, P>>, current: seq<Token<K, P>>)
    requires RawAgrees(raw, row, hist) && |hist| + |current| <= |row| && RawFits(raw, row)
    requires forall p, q :: 0 <= p < q < |row| ==> row[p] != row[q]
    ensures RawAgrees(StoreRaw(raw, row, |hist|, current), row, hist + current)
  {
    var locs, vals := row[|hist|..|hist| + |current|], Keys(current);
    hide Scatter;
    forall p | 0 <= p < |hist| + |current| ensures Scatter(raw, locs, vals)[row[p]] == (hist + current)[p].key {
      if p < |hist| {
        ScatterMisses(raw, locs, vals, row[p]);
      } else {
        ScatterHits(raw, locs, vals, p - |hist|);
      }
    }
  }

  /** Storing elsewhere keeps it too. */
  lemma {:induction false} RawOthersKept<K, P>(raw: seq<K>, row: seq<nat>, hist: seq<Token<K, P>>, other: seq<nat>,
        start: nat, current: seq<Token<K, P>>)
    requires RawAgrees(raw, row, hist) && RawFits(raw, other) && start + |current| <= |other|
    requires forall p, q :: 0 <= p < |hist| && start <= q < start + |current| ==> other[q] != row[p]
    ensures RawAgrees(StoreRaw(raw, other, start, current), row, hist)
  {
    var locs, vals := other[start..start + |current|], Keys(current);
    hide Scatter;
    forall p | 0 <= p < |hist| ensures Scatter(raw, locs, vals)[row[p]] == hist[p].key {
      ScatterMisses(raw, locs, vals, row[p]);
    }
  }

  // ----- The branches compared -----

  /** The rotary position of each complete group's first token is its index in the sequence. */
  ghost predicate StartsMatch<K, P>(hist: seq<Token<K, P>>, at: nat -> P, ratio: Pos)
  {
    forall g: nat :: g < Groups(|hist|, ratio) ==>
        (GroupInside(g, |hist|, ratio); hist[Base(g, ratio)].pos == at(Base(g, ratio)))
  }

  /** Text prompts have rotary positions equal to sequence positions. */
  ghost predicate TextOnly<K, P>(hist: seq<Token<K, P>>, at: nat -> P) {
    forall p :: 0 <= p < |hist| ==> hist[p].pos == at(p)
  }

  /** The key of complete group `g` before it is transformed. */
  function GroupKey<K, P>(o: Ops<K, P>, hist: seq<Token<K, P>>, g: nat): K
    requires Base(g, o.ratio) + o.ratio <= |hist|
  {
    o.pool(Keys(hist[Base(g, o.ratio)..Base(g, o.ratio) + o.ratio]))
  }

  /** The transform gives the key different values at different positions. */
  ghost predicate TellsApart<K, P(!new)>(o: Ops<K, P>, k: K) {
    forall p: P, q: P :: o.transform(k, p) == o.transform(k, q) ==> p == q
  }

  /** It does so for the pooled keys of the history, whatever it does to others: a zero key, say, is the
      same at every rotary position. */
  ghost predicate GroupsTellApart<K, P(!new)>(o: Ops<K, P>, hist: seq<Token<K, P>>) {
    forall g: nat :: g < Groups(|hist|, o.ratio) ==>
        (GroupInside(g, |hist|, o.ratio); TellsApart(o, GroupKey(o, hist, g)))
  }

  lemma {:induction false} TextMatches<K, P>(hist: seq<Token<K, P>>, at: nat -> P, ratio: Pos)
    requires TextOnly(hist, at)
    ensures StartsMatch(hist, at, ratio)
  {
    forall g: nat | g < Groups(|hist|, ratio)
        ensures Base(g, ratio) + ratio <= |hist| { GroupInside(g, |hist|, ratio); }
  }

  /** What the raw branch computes for a complete group. */
  lemma {:induction false} RawGroup<K, P>(
      o: Ops<K, P>, raw: seq<K>, row: seq<nat>, hist: seq<Token<K, P>>, blocks: nat, at: nat -> P, g: nat)
    requires RawReads(raw, row, blocks, o.ratio) && RawAgrees(raw, row, hist) && g < Groups(|hist|, o.ratio) <= blocks
    ensures Base(g, o.ratio) + o.ratio <= |hist|
    ensures RawBranch(o, raw, row, blocks, at)[g] ==
            o.transform(GroupKey(o, hist, g), at(Base(g, o.ratio)))
  {
    GroupInside(g, |hist|, o.ratio);
    BaseAscends(g, blocks, o.ratio);
    var base := Base(g, o.ratio);
    var mine, theirs := RawBlock(raw, row, g, o.ratio), Keys(hist[base..base + o.ratio]);
    forall i | 0 <= i < o.ratio ensures mine[i] == theirs[i] {
      assert hist[base..base + o.ratio][i] == hist[base + i];
    }
    assert mine == theirs;
  }

  /** What both branches read is there, over a width of `blocks`. */
  ghost predicate BothRead<K, P>(o: Ops<K, P>, c: Cache<K, P>, raw: seq<K>, row: seq<nat>, hist: seq<Token<K, P>>,
        blocks: nat) {
    && |hist| <= |row| && Groups(|hist|, o.ratio) <= blocks && RawReads(raw, row, blocks, o.ratio)
    && CompAgrees(o, c.comp, row, hist) && RawAgrees(raw, row, hist)
  }

  lemma {:induction false} GatherReads<K, P>(
      o: Ops<K, P>, c: Cache<K, P>, row: seq<nat>, hist: seq<Token<K, P>>)
    requires |hist| <= |row| && CompAgrees(o, c.comp, row, hist)
    ensures Reads(o, c, row, |hist|)
  {
    forall g: nat | g < Groups(|hist|, o.ratio)
        ensures Base(g, o.ratio) + o.ratio <= |hist| && RowOf(row, g, o.ratio) < |c.comp| {
      assert GroupAgrees(o, c.comp, row, hist, g);
    }
  }

  /** Over any width that covers the complete groups, the two branches agree on them whenever every
      group starts at its own index; when the transform tells positions of these groups' keys apart,
      only then. */
  lemma {:induction false} GatherIsRawIff<K, P(!new)>(
      o: Ops<K, P>, c: Cache<K, P>, raw: seq<K>, row: seq<nat>, hist: seq<Token<K, P>>, blocks: nat, at: nat -> P)
    requires BothRead(o, c, raw, row, hist, blocks)
    ensures Reads(o, c, row, |hist|)
    ensures var a, b := Gather(o, c, row, |hist|), RawBranch(o, raw, row, blocks, at);
            && (StartsMatch(hist, at, o.ratio) ==> a == b[..|a|])
            && (GroupsTellApart(o, hist) ==> (a == b[..|a|] <==> StartsMatch(hist, at, o.ratio)))
  {
    GatherReads(o, c, row, hist);
    var a, b := Gather(o, c, row, |hist|), RawBranch(o, raw, row, blocks, at);
    forall g: nat | g < |a|
      ensures Base(g, o.ratio) + o.ratio <= |hist|
      ensures hist[Base(g, o.ratio)].pos == at(Base(g, o.ratio)) ==> a[g] == b[g]
      ensures TellsApart(o, GroupKey(o, hist, g)) && a[g] == b[g] ==>
          hist[Base(g, o.ratio)].pos == at(Base(g, o.ratio))
    {
      GroupInside(g, |hist|, o.ratio);
      assert GroupAgrees(o, c.comp, row, hist, g);
      RawGroup(o, raw, row, hist, blocks, at, g);
    }
    hide Gather, RawBranch, CompAgrees, RawReads, RawAgrees, TellsApart, GroupKey;
    if GroupsTellApart(o, hist) && a == b[..|a|] {
      forall g: nat | g < |a| ensures hist[Base(g, o.ratio)].pos == at(Base(g, o.ratio)) {
        assert b[..|a|][g] == b[g];
      }
    }
  }

  // ----- The selection over either branch -----

  /** Blocks a query at `pos` may select: complete at the query, and complete in the request. */
  function Complete(pos: nat, kvLen: nat, ratio: Pos): nat
  {
    Min(Groups(pos + 1, ratio), Groups(kvLen, ratio))
  }

  function Scores<K>(score: K -> Score, keys: seq<K>): (r: seq<Score>)
    ensures |r| == |keys| && forall g :: 0 <= g < |keys| ==> r[g] == score(keys[g])
  {
    seq(|keys|, g requires 0 <= g < |keys| => score(keys[g]))
  }

  /** Scores masked past the complete blocks and padded to the width that is picked from. */
  function PaddedScores(scores: seq<Score>, complete: nat, k: nat): (r: seq<Score>)
    ensures |r| == if |scores| < k then k else |scores|
    ensures forall g :: 0 <= g < |r| ==> r[g] == if g < |scores| && g < complete then scores[g] else NegInf
  {
    Masked(scores, complete) + seq(if |scores| < k then k - |scores| else 0, _ => NegInf)
  }

  /** The selected blocks: picks with a finite score, the others marked -1. */
  function SelectBlocks(top: (seq<Score>, nat) -> seq<nat>, scores: seq<Score>, complete: nat, k: nat): (r: seq<int>) {
    var padded := PaddedScores(scores, complete, k);
    var picks := top(padded, k);
    seq<int>(|picks|, i requires 0 <= i < |picks| => if picks[i] < |padded| &&
        padded[picks[i]].Fin? then picks[i] as int else -1)
  }

  /** Blocks, then marks up to the width `k`. */
  function Marked(t: seq<nat>, k: nat): seq<int> {
    seq<int>(k, i requires 0 <= i < k => if i < |t| then t[i] as int else -1)
  }

  /** Whatever the width, the selection is a top-k of the complete blocks, then marks. */
  lemma {:induction false} SelectsComplete(
      top: (seq<Score>, nat) -> seq<nat>, scores: seq<Score>, complete: nat, k: nat)
      returns (t: seq<nat>)
    requires Lawful(top) && LiveFinite(scores, complete)
    ensures IsTopK(scores[..complete], Min(complete, k), t)
    ensures SelectBlocks(top, scores, complete, k) == Marked(t, k)
  {
    var padded := PaddedScores(scores, complete, k);
    var picks := top(padded, k);
    assert IsTopK(padded, k, picks);
    assert Masked(padded, complete) == padded;
    LiveFirst(padded, complete, k, picks);
    MaskedIsLiveTop(padded, complete, k, picks);
    assert padded[..complete] == scores[..complete];
    t := picks[..Min(complete, k)];
  }

  /** Distinct complete blocks, as many as there are up to the width. */
  ghost predicate Picks(t: seq<nat>, k: nat, complete: nat) {
    |t| == Min(complete, k) && Distinct(t) && Within(t, complete)
  }

  /** The two selections have as many blocks, complete ones, of equal scores rank by rank, then marks; the
      same ones without ties. */
  ghost predicate SelectedAlike<K>(
      topA: (seq<Score>, nat) -> seq<nat>, topB: (seq<Score>, nat) -> seq<nat>, score: K -> Score, a: seq<K>, b: seq<K>,
      complete: nat, k: nat, t: seq<nat>, u: seq<nat>)
  {
    && complete <= |a| && complete <= |b|
    && SelectBlocks(topA, Scores(score, a), complete, k) == Marked(t, k)
    && SelectBlocks(topB, Scores(score, b), complete, k) == Marked(u, k)
    && Picks(t, k, complete) && Picks(u, k, complete)
    && (forall i :: 0 <= i < |t| ==> score(a[t[i]]) == score(b[u[i]]))
    && ((forall g, h :: 0 <= g < h < complete ==> score(a[g]) != score(a[h])) ==> t == u)
  }

  /** Two branches that agree on the complete blocks select blocks of equal scores rank by rank, however
      wide they are and however each breaks ties; without ties they select the same blocks. */
  lemma {:induction false} BranchesSelectAlike<K(!new)>(
      topA: (seq<Score>, nat) -> seq<nat>, topB: (seq<Score>, nat) -> seq<nat>,
      score: K -> Score, a: seq<K>, b: seq<K>, complete: nat, k: nat)
      returns (t: seq<nat>, u: seq<nat>)
    requires Lawful(topA) && Lawful(topB) && complete <= |a| && complete <= |b| && a[..complete] == b[..complete]
    requires forall key: K :: score(key).Fin?
    ensures SelectedAlike(topA, topB, score, a, b, complete, k, t, u)
  {
    t := SelectsComplete(topA, Scores(score, a), complete, k);
    u := SelectsComplete(topB, Scores(score, b), complete, k);
    var live := Scores(score, a)[..complete];
    forall g | 0 <= g < complete ensures Scores(score, b)[g] == live[g] {
      assert a[..complete][g] == b[..complete][g];
    }
    assert live == Scores(score, b)[..complete];
    forall i | 0 <= i < |t| ensures live[t[i]] == live[u[i]] {
      RanksAgree(live, Min(complete, k), t, u, i);
    }
  }

  /** For any query of a request whose groups start at their own indices, whichever branch the cache
      was built for: the blocks selected are as many, of equal scores, and the same without ties. */
  lemma {:induction false} QuerySelectsAlike<K(!new), P(!new)>(
      o: Ops<K, P>, c: Cache<K, P>, raw: seq<K>, row: seq<nat>, hist: seq<Token<K, P>>, blocks: nat, at: nat -> P,
      pos: nat, topA: (seq<Score>, nat) -> seq<nat>, topB: (seq<Score>, nat) -> seq<nat>, score: K -> Score, k: nat)
      returns (t: seq<nat>, u: seq<nat>)
    requires BothRead(o, c, raw, row, hist, blocks) && StartsMatch(hist, at, o.ratio)
    requires Lawful(topA) && Lawful(topB) && forall key: K :: score(key).Fin?
    ensures Reads(o, c, row, |hist|)
    ensures SelectedAlike(topA, topB, score, Gather(o, c, row, |hist|), RawBranch(o, raw, row, blocks, at),
        Complete(pos, |hist|, o.ratio), k, t, u)
  {
    GatherIsRawIff(o, c, raw, row, hist, blocks, at);
    var a, b := Gather(o, c, row, |hist|), RawBranch(o, raw, row, blocks, at);
    var n := Complete(pos, |hist|, o.ratio);
    assert a[..n] == b[..|a|][..n] == b[..n];
    hide Gather, RawBranch, Complete, SelectBlocks, Marked;
    t, u := BranchesSelectAlike(topA, topB, score, a, b, n, k);
  }

  /** An image token's rotary position is not its index: the two branches then differ. */
  lemma {:induction false} RotaryPositionMatters()
    ensures var o := Ops(1, (ks: seq<int>) => 0, (k: int, p: int) => p);
            var hist := [Token(0, 5)];
            CompAgrees(o, [5], [0], hist) && Gather(o, Cache([5], []), [0], 1) == [5] &&
            RawBranch(o, [0], [0], 1, (n: nat) => n) == [0]
  {
  }
}
