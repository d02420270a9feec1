/** The tokens a query attends to: those of the selected blocks, then the tail no block has yet. */
module QsaTokens {
  import opened Basics
  import opened GroupMath
  import opened TopK
  import opened QsaGather

  /** Tokens of the blocks in order, marks for a marked block. */
  function BlockTokens(blocks: seq<int>, ratio: Pos): (r: seq<int>)
    ensures |r| == Base(|blocks|, ratio)
  {
    seq<int>(Base(|blocks|, ratio), i requires 0 <= i < Base(|blocks|, ratio) =>
      (PageInside(i, |blocks|, ratio);
       if blocks[Groups(i, ratio)] < 0 then -1 else blocks[Groups(i, ratio)] * ratio + i % ratio))
  }

  /** The `ratio - 1` positions after the complete blocks, marked past the query or the request. */
  function TailTokens(complete: nat, pos: nat, kvLen: nat, ratio: Pos): (r: seq<int>)
    ensures |r| == ratio - 1
  {
    seq<int>(ratio - 1, j requires 0 <= j < ratio - 1 =>
      if Base(complete, ratio) + j <= pos && Base(complete, ratio) + j < kvLen then Base(complete, ratio) + j else -1)
  }

  /** All indices of a query, of a width that does not depend on it. */
  function Indices(blocks: seq<int>, pos: nat, kvLen: nat, ratio: Pos): (r: seq<int>)
    ensures |r| == Base(|blocks|, ratio) + ratio - 1
  {
    BlockTokens(blocks, ratio) + TailTokens(Complete(pos, kvLen, ratio), pos, kvLen, ratio)
  }

  /** A token the query may see is reached exactly when its block is picked, or it comes after the complete
      blocks. */
  ghost predicate Reaches(t: seq<nat>, complete: nat, pos: nat, kvLen: nat, ratio: Pos, x: int) {
    0 <= x <= pos && x < kvLen && (Base(complete, ratio) <= x || x / ratio in t)
  }

  lemma {:induction false} BlockTokenAt(t: seq<nat>, k: nat, i: nat, ratio: Pos)
    requires |t| <= k && i < Base(k, ratio)
    ensures |Marked(t, k)| == k && Groups(i, ratio) < k
    ensures var x := BlockTokens(Marked(t, k), ratio)[i];
            if Groups(i, ratio) < |t|
            then x == Base(t[Groups(i, ratio)], ratio) + i % ratio && x / ratio == t[Groups(i, ratio)] &&
                x % ratio == i % ratio
            else x == -1
  {
    PageInside(i, k, ratio);
    if Groups(i, ratio) < |t| {
      DivBack(t[Groups(i, ratio)], i % ratio, ratio);
    }
  }

  /** What a query can see beyond complete blocks fits the tail. */
  lemma {:induction false} TailFits(pos: nat, kvLen: nat, ratio: Pos)
    ensures var seen := if pos + 1 < kvLen then pos + 1 else kvLen;
      && Complete(pos, kvLen, ratio) == Groups(seen, ratio)
      && Base(Groups(seen, ratio), ratio) <= seen < Base(Groups(seen, ratio), ratio) + ratio
  {
    GroupsAscend(pos + 1, kvLen, ratio);
    GroupsAscend(kvLen, pos + 1, ratio);
    OpenIsBase(if pos + 1 < kvLen then pos + 1 else kvLen, ratio);
  }

  /** Exactly the tokens reached are attended to: none after the query, and none outside its blocks. */
  lemma {:induction false} TokensExact(t: seq<nat>, k: nat, pos: nat, kvLen: nat, ratio: Pos, x: int)
    requires Picks(t, k, Complete(pos, kvLen, ratio))
    ensures x != -1 ==>
      (x in Indices(Marked(t, k), pos, kvLen, ratio) <==> (
        0 <= x <= pos && x < kvLen && (Complete(pos, kvLen, ratio) <= x / ratio || x / ratio in t)))
  {
    var n := Complete(pos, kvLen, ratio);
    TailFits(pos, kvLen, ratio);
    if 0 <= x { GroupInside(n, x, ratio); }
    var all := Indices(Marked(t, k), pos, kvLen, ratio);
    hide BlockTokens, TailTokens, Complete;
    if x != -1 && x in all {
      var i :| 0 <= i < |all| && all[i] == x;
      IndexReaches(t, k, pos, kvLen, ratio, i);
    }
    if Reaches(t, n, pos, kvLen, ratio, x) {
      var i := IndexOf(t, k, pos, kvLen, ratio, x);
      assert all[i] == x;
    }
  }

  lemma {:induction false} IndexReaches(t: seq<nat>, k: nat, pos: nat, kvLen: nat, ratio: Pos, i: nat)
    requires Picks(t, k, Complete(pos, kvLen, ratio))
    requires i < |Indices(Marked(t, k), pos, kvLen, ratio)|
    ensures var x := Indices(Marked(t, k), pos, kvLen, ratio)[i];
            x == -1 || Reaches(t, Complete(pos, kvLen, ratio), pos, kvLen, ratio, x)
  {
    TailFits(pos, kvLen, ratio);
    var n := Complete(pos, kvLen, ratio);
    if i < Base(k, ratio) {
      BlockTokenAt(t, k, i, ratio);
      if Groups(i, ratio) < |t| { BaseAscends(t[Groups(i, ratio)], n, ratio); }
    }
  }

  /** Where a reached token is. */
  lemma {:induction false} IndexOf(t: seq<nat>, k: nat, pos: nat, kvLen: nat, ratio: Pos, x: int) returns (i: nat)
    requires Picks(t, k, Complete(pos, kvLen, ratio))
    requires Reaches(t, Complete(pos, kvLen, ratio), pos, kvLen, ratio, x)
    ensures i < |Indices(Marked(t, k), pos, kvLen, ratio)| && Indices(Marked(t, k), pos, kvLen, ratio)[i] == x
  {
    TailFits(pos, kvLen, ratio);
    var start := Base(Complete(pos, kvLen, ratio), ratio);
    if start <= x {
      i := Base(k, ratio) + (x - start);
    } else {
      var j :| 0 <= j < |t| && t[j] == x / ratio;
      i := Base(j, ratio) + x % ratio;
      BaseAscends(j, k, ratio);
      DivBack(j, x % ratio, ratio);
      OpenIsBase(x, ratio);
      BlockTokenAt(t, k, i, ratio);
    }
  }

  /** No token is attended to twice. */
  lemma {:induction false} TokensOnce(t: seq<nat>, k: nat, pos: nat, kvLen: nat, ratio: Pos, i: nat, j: nat)
    requires Picks(t, k, Complete(pos, kvLen, ratio))
    requires i < j < |Indices(Marked(t, k), pos, kvLen, ratio)|
    ensures var all := Indices(Marked(t, k), pos, kvLen, ratio); all[i] == all[j] ==> all[i] == -1
  {
    TailFits(pos, kvLen, ratio);
    if i < Base(k, ratio) {
      BlockTokenAt(t, k, i, ratio);
      if j < Base(k, ratio) {
        BlockTokenAt(t, k, j, ratio);
        OpenIsBase(i, ratio);
        OpenIsBase(j, ratio);
      } else if Groups(i, ratio) < |t| {
        BaseAscends(t[Groups(i, ratio)], Complete(pos, kvLen, ratio), ratio);
      }
    }
  }

  /** The budget covers the complete blocks exactly when selection is dense: every token up to the query. */
  lemma {:induction false} DenseIff(t: seq<nat>, k: nat, pos: nat, kvLen: nat, ratio: Pos)
    requires Picks(t, k, Complete(pos, kvLen, ratio))
    ensures (forall x: nat :: x <= pos && x < kvLen ==> x in Indices(Marked(t, k), pos, kvLen, ratio)) <==>
        Complete(pos, kvLen, ratio) <= k
  {
    var n := Complete(pos, kvLen, ratio);
    var all := Indices(Marked(t, k), pos, kvLen, ratio);
    TailFits(pos, kvLen, ratio);
    hide Indices, Marked, Complete;
    if n <= k {
      AllIn(t, n);
      forall x: nat | x <= pos && x < kvLen ensures x in all { TokensExact(t, k, pos, kvLen, ratio, x); }
    } else {
      var g := Missed(t, n);
      BaseAscends(g, n, ratio);
      GroupsOfBase(g, ratio);
      hide Base;
      TokensExact(t, k, pos, kvLen, ratio, Base(g, ratio));
    }
  }

  /** As many distinct picks as blocks are all of them. */
  lemma {:induction false} AllIn(t: seq<nat>, n: nat)
    requires |t| == n && Distinct(t) && Within(t, n)
    ensures forall g: nat :: g < n ==> g in t
  {
    AllPicked(t, n);
    forall g: nat | g < n ensures g in t {
      assert g in multiset(Upto(n)) by { assert Upto(n)[g] == g; }
    }
  }

  /** Fewer picks than blocks leave one out. */
  lemma {:induction false} Missed(t: seq<nat>, n: nat) returns (g: nat)
    requires |t| < n
    ensures g < n && g !in t
  {
    SetSize(Upto(n));
    SetSize(t);
    var left := Elems(Upto(n)) - Elems(t);
    if left == {} {
      forall g | g in Elems(Upto(n)) ensures g in Elems(t) { assert g !in left; }
      SubsetSize(Elems(Upto(n)), Elems(t));
    }
    g :| g in left;
  }

  /** A query of the request always has a token to attend to, if the budget has a block. */
  lemma {:induction false} SomeToken(t: seq<nat>, k: Pos, pos: nat, kvLen: Pos, ratio: Pos) returns (x: nat)
    requires Picks(t, k, Complete(pos, kvLen, ratio))
    ensures x in Indices(Marked(t, k), pos, kvLen, ratio)
  {
    TailFits(pos, kvLen, ratio);
    var n := Complete(pos, kvLen, ratio);
    if n == 0 {
      x := if pos < kvLen then pos else kvLen - 1;
    } else {
      x := Base(t[0], ratio);
      BaseAscends(t[0], n, ratio);
      GroupsOfBase(t[0], ratio);
    }
    TokensExact(t, k, pos, kvLen, ratio, x);
  }
}
