/** Causal selection for sparse attention: which blocks a query attends, the physical rows they map
    to, and the counts that bound the kernel. */
module SparseSelect {
  import opened Basics
  import opened GroupMath
  import opened TopK

  type Top = (seq<Score>, nat) -> seq<nat>

  /** One row of a selection over `live` blocks: block numbers plus `offset`, or -1. */
  function Select(top: Top, scores: seq<Score>, live: nat, topk: nat, offset: nat): (r: seq<int>) {
    var picks := top(Masked(scores, live), Min(topk, |scores|));
    seq(|picks|, i requires 0 <= i < |picks| => if picks[i] >= live then -1 else picks[i] + offset)
  }

  /** Blocks a query at position `pos` may attend. */
  function Live(pos: nat, ratio: Pos): nat
  {
    Groups(pos + 1, ratio)
  }

  /** A live block is complete at the query: none of its tokens is in the future. */
  lemma {:induction false} LiveIsCausal(pos: nat, ratio: Pos, block: nat)
    ensures block < Live(pos, ratio) <==> Base(block, ratio) + ratio - 1 <= pos
  {
    GroupInside(block, pos + 1, ratio);
  }

  /** `sel` begins with a top-k of the first `live` scores, and every later entry is -1. */
  ghost predicate SelectsLiveTop(scores: seq<Score>, live: nat, k: nat, offset: nat, sel: seq<int>, t: seq<nat>) {
    && live <= |scores| && |sel| == k
    && IsTopK(scores[..live], Min(live, k), t)
    && (forall i :: 0 <= i < Min(live, k) ==> sel[i] == t[i] + offset)
    && (forall i :: Min(live, k) <= i < k ==> sel[i] == -1)
  }

  lemma {:induction false} SelectIsLiveTop(top: Top, scores: seq<Score>, live: nat, topk: nat, offset: nat)
    returns (t: seq<nat>)
    requires Lawful(top) && LiveFinite(scores, live)
    ensures SelectsLiveTop(scores, live, Min(topk, |scores|), offset, Select(top, scores, live, topk, offset), t)
  {
    var masked, k := Masked(scores, live), Min(topk, |scores|);
    assert IsTopK(masked, k, top(masked, k));
    MaskedIsLiveTop(scores, live, k, top(masked, k));
    t := top(masked, k)[..Min(live, k)];
    LiveFirst(scores, live, k, top(masked, k));
  }

  /** Selected positions to physical rows, the sentinel passed through. */
  function MapRows(picks: seq<int>, rows: seq<int>): (r: seq<int>)
    requires forall i :: 0 <= i < |picks| ==> picks[i] < |rows|
    ensures |r| == |picks|
  {
    seq(|picks|, i requires 0 <= i < |picks| => if picks[i] < 0 then -1 else rows[picks[i]])
  }

  /** Physical rows a query attends: the first `count` of its list. */
  function Attended(sel: seq<int>, count: nat): seq<int>
    requires count <= |sel|
  {
    sel[..count]
  }

  /** One query's row list and count, token-granular. */
  ghost predicate RowChoice(scores: seq<Score>, live: nat, k: nat, rows: seq<int>, sel: seq<int>, count: nat,
        t: seq<nat>) {
    && live <= |scores| && live <= |rows| && |sel| == k
    && count == Min(live, k)
    && IsTopK(scores[..live], count, t)
    && Attended(sel, count) == Gathered(rows, t)
    && (forall i :: count <= i < k ==> sel[i] == -1)
  }

  lemma {:induction false} RowsOfLiveTop(top: Top, scores: seq<Score>, live: nat, topk: nat, rows: seq<int>)
    returns (t: seq<nat>)
    requires Lawful(top) && LiveFinite(scores, live) && |rows| == |scores|
    ensures forall i :: 0 <= i < |Select(top, scores, live, topk, 0)| ==> Select(top, scores, live, topk, 0)[i] < |rows|
    ensures RowChoice(scores, live, Min(topk, |scores|), rows, MapRows(Select(top, scores, live, topk, 0), rows),
        Min(live, Min(topk, |scores|)), t)
  {
    t := SelectIsLiveTop(top, scores, live, topk, 0);
  }

  lemma {:induction false} SelectInRange(top: Top, scores: seq<Score>, live: nat, topk: nat)
    requires Lawful(top)
    ensures |Select(top, scores, live, topk, 0)| == Min(topk, |scores|)
    ensures forall i :: 0 <= i < |Select(top, scores, live, topk, 0)| ==>
        Select(top, scores, live, topk, 0)[i] < |scores|
  {
    assert IsTopK(Masked(scores, live), Min(topk, |scores|), top(Masked(scores, live), Min(topk, |scores|)));
  }

  // ----- Prefill -----

  /** Selections of consecutive queries, the first at position `start`. */
  function SelectPrefill(top: Top, scores: seq<seq<Score>>, start: nat, ratio: Pos, topk: nat, offset: nat): (
        r: seq<seq<int>>)
    ensures |r| == |scores|
  {
    seq(|scores|, s requires 0 <= s < |scores| => Select(top, scores[s], Live(start + s, ratio), topk, offset))
  }

  /** More live blocks than there are is all of them. */
  lemma {:induction false} AllLive(top: Top, scores: seq<Score>, live: nat, topk: nat, offset: nat)
    requires Lawful(top) && |scores| <= live
    ensures Select(top, scores, live, topk, offset) == Select(top, scores, |scores|, topk, offset)
  {
    assert Masked(scores, live) == Masked(scores, |scores|);
    assert IsTopK(Masked(scores, live), Min(topk, |scores|), top(Masked(scores, live), Min(topk, |scores|)));
  }

  /** What a prefill row has, at any ratio and offset. `t` are the selected blocks: none has a token after the
      query, they come in descending order of score, no such block left out scores higher, and none is left
      out while there is room. All else is -1. */
  lemma {:induction false} PrefillIsCausal(top: Top, scores: seq<seq<Score>>, start: nat, ratio: Pos, topk: nat,
        offset: nat, s: nat)
    returns (t: seq<nat>)
    requires Lawful(top) && s < |scores|
    requires forall b :: 0 <= b < |scores[s]| && b * ratio + ratio - 1 <= start + s ==> scores[s][b].Fin?
    ensures var sel, row := SelectPrefill(top, scores, start, ratio, topk, offset)[s], scores[s];
      && |sel| == Min(topk, |row|) && |t| <= |sel|
      && (forall i :: 0 <= i < |t| ==>
          sel[i] == offset + t[i] && t[i] < |row| && t[i] * ratio + ratio - 1 <= start + s && row[t[i]].Fin?)
      && (forall i :: |t| <= i < |sel| ==> sel[i] == -1)
      && (forall i, j :: 0 <= i < j < |t| ==> t[i] != t[j] && row[t[i]].v >= row[t[j]].v)
      && (forall b: nat :: b < |row| && b * ratio + ratio - 1 <= start + s && b !in t ==>
          |t| == |sel| && row[b].Fin? && forall i :: 0 <= i < |t| ==> row[t[i]].v >= row[b].v)
  {
    var row, live := scores[s], Live(start + s, ratio);
    forall b: nat ensures b < live <==> b * ratio + ratio - 1 <= start + s { LiveIsCausal(start + s, ratio, b); }
    if |row| < live { AllLive(top, row, live, topk, offset); }
    hide Select, Live;
    var n := Min(live, |row|);
    t := SelectIsLiveTop(top, row, n, topk, offset);
    PicksAreTop(row, n, Min(n, Min(topk, |row|)), t);
  }

  /** A top-k of the first `n` scores, all finite, in plain terms. */
  lemma {:induction false} PicksAreTop(row: seq<Score>, n: nat, k: nat, t: seq<nat>)
    requires n <= |row| && k <= n && IsTopK(row[..n], k, t) && forall b :: 0 <= b < n ==> row[b].Fin?
    ensures |t| == k && forall i :: 0 <= i < k ==> t[i] < n && row[t[i]].Fin?
    ensures forall i, j :: 0 <= i < j < k ==> t[i] != t[j] && row[t[i]].v >= row[t[j]].v
    ensures forall b: nat :: b < n && b !in t ==> k < n && forall i :: 0 <= i < k ==> row[t[i]].v >= row[b].v
  {
    assert forall b :: 0 <= b < n ==> row[..n][b] == row[b];
    if k == n {
      AllPicked(t, n);
      forall b: nat | b < n ensures b in t {
        assert b in multiset(Upto(n)) by { assert Upto(n)[b] == b; }
      }
    }
  }

  datatype Selection = EmptyQuery | Rows(sel: seq<seq<int>>, counts: seq<nat>)

  /** What one query gets: a function of its own scores and position, not of its chunk. */
  ghost function QueryRows(top: Top, scores: seq<Score>, pos: nat, topk: nat, rows: seq<int>): (r: seq<int>)
    requires Lawful(top) && |rows| == |scores|
    ensures |r| == Min(topk, |rows|)
  {
    SelectInRange(top, scores, pos + 1, topk);
    MapRows(Select(top, scores, pos + 1, topk, 0), rows)
  }

  function QueryCount(pos: nat, topk: nat, width: nat): nat { Min(pos + 1, Min(topk, width)) }

  const SCORE_BYTES: nat := 0x800_0000
  const SCORE_CHUNK: nat := 512

  function Quotient(a: nat, b: Pos): nat
  {
    a / b
  }

  /** Queries scored at a time: fewer as the context grows, at least 16. */
  function ChunkSize(width: nat): (c: nat)
    ensures 16 <= c <= SCORE_CHUNK
  {
    Max(16, Min(SCORE_CHUNK, Quotient(SCORE_BYTES, Max(width * 4, 1))))
  }

  /** A chunk's four-byte scores fit 128 MiB, or it is 16 queries; it is 512, or one query more does not fit. */
  lemma {:induction false} ChunkFits(width: nat)
    ensures ChunkSize(width) * (4 * width) <= 134217728 || ChunkSize(width) == 16
    ensures ChunkSize(width) == 512 || 134217728 < (ChunkSize(width) + 1) * (4 * width)
  {
    var w := Max(width * 4, 1);
    var q := Quotient(SCORE_BYTES, w);
    OpenIsBase(SCORE_BYTES, w);
    assert Base(q, w) <= SCORE_BYTES < Base(q, w) + w;
    BaseAscends(ChunkSize(width), q, w);
    BaseAscends(q, ChunkSize(width), w);
    assert ChunkSize(width) * w == Base(ChunkSize(width), w);
    assert (ChunkSize(width) + 1) * w == Base(ChunkSize(width), w) + w;
  }

  /** The row a chunk computes for a query is the query's own. */
  lemma {:induction false} PickIsQuery(top: Top, scores: seq<seq<Score>>, positions: seq<nat>, topk: nat,
        rows: seq<int>, s0: nat, s1: nat, s: nat)
    requires Lawful(top) && s0 <= s < s1 <= |scores| == |positions|
    requires forall i :: 0 <= i < |positions| ==> positions[i] == positions[0] + i && |scores[i]| == |rows|
    ensures var pick := SelectPrefill(top, scores[s0..s1], positions[0] + s0, 1, Min(topk, |rows|), 0)[s - s0];
            && (forall i :: 0 <= i < |pick| ==> pick[i] < |rows|)
            && MapRows(pick, rows) == QueryRows(top, scores[s], positions[s], topk, rows)
  {
    SelectInRange(top, scores[s], positions[s] + 1, topk);
  }

  /** The selection of one request's queries, scored chunk by chunk. The first position of an empty
      query does not exist, and asking for it fails. */
  method SelectRequest(top: Top, scores: seq<seq<Score>>, positions: seq<nat>, topk: nat, rows: seq<int>)
        returns (r: Selection)
    requires Lawful(top) && |scores| == |positions|
    requires forall i :: 0 <= i < |positions| ==> positions[i] == positions[0] + i && |scores[i]| == |rows|
    ensures r.EmptyQuery? <==> positions == []
    ensures r.Rows? ==> |r.sel| == |r.counts| == |positions| && forall i :: 0 <= i < |positions| ==>
      (r.sel[i] == QueryRows(top, scores[i], positions[i], topk, rows) &&
          r.counts[i] == QueryCount(positions[i], topk, |rows|))
  {
    if positions == [] { return EmptyQuery; }
    var width := |rows|;
    var k := Min(topk, width);
    var m := |positions|;
    var start := positions[0];
    var sel := new seq<int>[m](_ => []);
    var chunk := ChunkSize(width);
    var s0 := 0;
    hide Select, SelectPrefill, MapRows, QueryRows, QueryCount, ChunkSize, Lawful;
    while s0 < m
      invariant 0 <= s0 <= m
      invariant forall i :: 0 <= i < s0 ==> sel[i] == QueryRows(top, scores[i], positions[i], topk, rows)
      decreases m - s0
    {
      var s1 := Min(s0 + chunk, m);
      var picks := SelectPrefill(top, scores[s0..s1], start + s0, 1, k, 0);
      for s := s0 to s1
        invariant forall i :: 0 <= i < s ==> sel[i] == QueryRows(top, scores[i], positions[i], topk, rows)
      {
        PickIsQuery(top, scores, positions, topk, rows, s0, s1, s);
        sel[s] := MapRows(picks[s - s0], rows);
      }
      s0 := s1;
    }
    r := Rows(sel[..], seq(m, i requires 0 <= i < m => QueryCount(positions[i], topk, width)));
  }

  /** A query's row list starts with the rows of a top-k of the positions it can see; the count
      stops before the sentinels. */
  lemma {:induction false} QueryRowsAreLiveTop(top: Top, scores: seq<Score>, pos: nat, topk: nat, rows: seq<int>)
    returns (t: seq<nat>)
    requires Lawful(top) && LiveFinite(scores, pos + 1) && |rows| == |scores|
    ensures RowChoice(scores, pos + 1, Min(topk, |rows|), rows, QueryRows(top, scores, pos, topk, rows),
        QueryCount(pos, topk, |rows|), t)
  {
    t := RowsOfLiveTop(top, scores, pos + 1, topk, rows);
  }

  /** Sparse selection attends the rows the dense path does, each once, exactly when the visible
      positions are no more than the top-k. */
  lemma {:induction false} DenseIff(top: Top, scores: seq<Score>, pos: nat, topk: nat, rows: seq<int>)
    requires Lawful(top) && LiveFinite(scores, pos + 1) && |rows| == |scores|
    ensures multiset(Attended(QueryRows(top, scores, pos, topk, rows),
        QueryCount(pos, topk, |rows|))) == multiset(Attended(rows, pos + 1))
            <==> pos + 1 <= topk
  {
    var t := QueryRowsAreLiveTop(top, scores, pos, topk, rows);
    var a, b := Attended(QueryRows(top, scores, pos, topk, rows), QueryCount(pos, topk, |rows|)),
        Attended(rows, pos + 1);
    if pos + 1 <= topk {
      AllPicked(t, pos + 1);
      GatherPermutes(rows, t, Upto(pos + 1));
      assert Gathered(rows, Upto(pos + 1)) == b;
    } else {
      assert |multiset(a)| == |a| && |multiset(b)| == |b|;
    }
  }

  // ----- Decode -----

  /** The decode selection masks nothing: its staged scores are already minus infinity past `valid`. */
  function SelectDecode(top: Top, scores: seq<Score>, valid: nat, topk: nat, offset: nat): (r: seq<int>) {
    var picks := top(scores, Min(topk, |scores|));
    seq(|picks|, i requires 0 <= i < |picks| => if picks[i] >= valid then -1 else picks[i] + offset)
  }

  ghost predicate Staged(scores: seq<Score>, valid: nat) {
    LiveFinite(scores, valid) && forall i :: valid <= i < |scores| ==> scores[i].NegInf?
  }

  /** Staged scores mask themselves. */
  lemma {:induction false} StagedSelect(top: Top, scores: seq<Score>, valid: nat, topk: nat, offset: nat)
    requires Staged(scores, valid)
    ensures SelectDecode(top, scores, valid, topk, offset) == Select(top, scores, valid, topk, offset)
  {
    assert Masked(scores, valid) == scores;
  }

  /** A decode selection is a top-k of the live blocks too, whatever the staged width. */
  lemma {:induction false} DecodeIsLiveTop(top: Top, scores: seq<Score>, valid: nat, topk: nat, offset: nat)
    returns (t: seq<nat>)
    requires Lawful(top) && Staged(scores, valid)
    ensures SelectsLiveTop(scores, valid, Min(topk, |scores|), offset, SelectDecode(top, scores, valid, topk, offset),
        t)
  {
    StagedSelect(top, scores, valid, topk, offset);
    t := SelectIsLiveTop(top, scores, valid, topk, offset);
  }

  ghost function DecodeRows(top: Top, scores: seq<Score>, valid: nat, topk: nat, rows: seq<int>): (r: seq<int>)
    requires Lawful(top) && |rows| == |scores| && Staged(scores, valid)
  {
    SelectInRange(top, scores, valid, topk);
    StagedSelect(top, scores, valid, topk, 0);
    MapRows(SelectDecode(top, scores, valid, topk, 0), rows)
  }

  /** A decode step over any staged width and a prefill of the same position choose equally many
      rows, with equal scores rank by rank; without ties they choose the same rows. The two top-k
      routines need not break ties alike. */
  lemma {:induction false} DecodeIsPrefill(topD: Top, topP: Top, staged: seq<Score>, valid: nat, topk: nat,
        wide: seq<int>)
    returns (d: seq<nat>, p: seq<nat>)
    requires Lawful(topD) && Lawful(topP) && |wide| == |staged| && Staged(staged, valid) && 0 < valid
    ensures var count := QueryCount(valid - 1, topk, |wide|);
            && count == QueryCount(valid - 1, topk, valid)
            && RowChoice(staged, valid, Min(topk, |wide|), wide, DecodeRows(topD, staged, valid, topk, wide), count, d)
            && RowChoice(staged[..valid], valid, Min(topk, valid), wide[..valid],
                         QueryRows(topP, staged[..valid], valid - 1, topk, wide[..valid]), count, p)
            && (forall i :: 0 <= i < count ==> staged[d[i]] == staged[p[i]])
            && ((forall x, y :: 0 <= x < y < valid ==> staged[x] != staged[y]) ==> d == p)
  {
    StagedSelect(topD, staged, valid, topk, 0);
    d := RowsOfLiveTop(topD, staged, valid, topk, wide);
    p := RowsOfLiveTop(topP, staged[..valid], valid, topk, wide[..valid]);
    var live, count := staged[..valid], QueryCount(valid - 1, topk, |wide|);
    assert live[..valid] == live;
    forall i | 0 <= i < count ensures live[d[i]] == live[p[i]] {
      RanksAgree(live, count, d, p, i);
    }
  }
}
