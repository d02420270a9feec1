/** Top-k over one row of scores, as a contract that leaves ties open, and what follows from it. */
module TopK {
  import opened Basics

  datatype Score = NegInf | Fin(v: real)

  predicate AtLeast(a: Score, b: Score) {
    b.NegInf? || (a.Fin? && a.v >= b.v)
  }

  ghost predicate Distinct(p: seq<nat>) {
    forall i, j :: 0 <= i < j < |p| ==> p[i] != p[j]
  }

  ghost predicate Within(p: seq<nat>, n: nat) {
    forall i :: 0 <= i < |p| ==> p[i] < n
  }

  ghost predicate Descending(s: seq<Score>, p: seq<nat>)
    requires Within(p, |s|)
  {
    forall i, j :: 0 <= i < j < |p| ==> AtLeast(s[p[i]], s[p[j]])
  }

  /** No index that `p` leaves out scores higher than one it has. */
  ghost predicate Dominates(s: seq<Score>, p: seq<nat>)
    requires Within(p, |s|)
  {
    forall x: nat, i :: x < |s| && 0 <= i < |p| && x !in p ==> AtLeast(s[p[i]], s[x])
  }

  ghost predicate IsTopK(s: seq<Score>, k: nat, p: seq<nat>) {
    |p| == k && Within(p, |s|) && Distinct(p) && Descending(s, p) && Dominates(s, p)
  }

  /** A top-k routine: any choice among ties. */
  ghost predicate Lawful(top: (seq<Score>, nat) -> seq<nat>) {
    forall s: seq<Score>, k: nat :: k <= |s| ==> IsTopK(s, k, top(s, k))
  }

  // ----- Counting -----

  lemma {:induction false} SubsetSize<T>(a: set<T>, b: set<T>)
    ensures a <= b ==> (|a| <= |b| && (|a| == |b| ==> a == b))
  {
    if a <= b {
      if a != {} {
        var x :| x in a;
        SubsetSize(a - {x}, b - {x});
      }
    }
  }

  function Elems(p: seq<nat>): (r: set<nat>)
    ensures forall x :: x in r <==> x in p
  {
    set x: nat | x in p
  }

  lemma {:induction false} SetSize(p: seq<nat>)
    ensures |Elems(p)| <= |p|
    ensures Distinct(p) ==> |Elems(p)| == |p|
  {
    if p == [] {
      assert Elems(p) == {};
    } else {
      var n := |p| - 1;
      SetSize(p[..n]);
      assert Elems(p) == Elems(p[..n]) + {p[n]};
      if Distinct(p) {
        assert p[n] !in p[..n];
      }
    }
  }

  /** Distinct indices that all occur in `b` are no more than `b` has places. */
  lemma {:induction false} Inject(a: seq<nat>, b: seq<nat>)
    requires Distinct(a) && forall i :: 0 <= i < |a| ==> a[i] in b
    ensures |a| <= |b|
  {
    SetSize(a);
    SetSize(b);
    SubsetSize(Elems(a), Elems(b));
  }

  function Upto(n: nat): (r: seq<nat>)
    ensures |r| == n && forall i :: 0 <= i < n ==> r[i] == i
  {
    seq<nat>(n, i requires 0 <= i < n => i)
  }

  // ----- What the contract fixes -----

  /** Two top-k results of one row have equal scores rank by rank, whatever they do with ties. */
  lemma {:induction false} RanksAgree(s: seq<Score>, k: nat, p: seq<nat>, q: seq<nat>, i: nat)
    requires IsTopK(s, k, p) && IsTopK(s, k, q) && i < k
    ensures s[p[i]] == s[q[i]]
  {
    RankAtLeast(s, k, p, q, i);
    RankAtLeast(s, k, q, p, i);
  }

  lemma {:induction false} RankAtLeast(s: seq<Score>, k: nat, p: seq<nat>, q: seq<nat>, i: nat)
    requires IsTopK(s, k, p) && IsTopK(s, k, q) && i < k
    ensures AtLeast(s[q[i]], s[p[i]])
  {
    if !AtLeast(s[q[i]], s[p[i]]) {
      var a, b := p[..i + 1], q[..i];
      forall j | 0 <= j < |a| ensures a[j] in b {
        assert AtLeast(s[p[j]], s[p[i]]);
        if p[j] in q {
          var m :| 0 <= m < k && q[m] == p[j];
          assert m < i;
          assert b[m] == p[j];
        }
      }
      Inject(a, b);
    }
  }

  /** The scores with every index from `live` on put at minus infinity. */
  function Masked(s: seq<Score>, live: nat): (r: seq<Score>)
    ensures |r| == |s|
    ensures forall i :: 0 <= i < |s| ==> r[i] == if i >= live then NegInf else s[i]
  {
    seq(|s|, i requires 0 <= i < |s| => if i >= live then NegInf else s[i])
  }

  ghost predicate LiveFinite(s: seq<Score>, live: nat) {
    live <= |s| && forall i :: 0 <= i < live ==> s[i].Fin?
  }

  /** The masked row's picks: first the live ones, then only dead ones. */
  lemma {:induction false} LiveFirst(s: seq<Score>, live: nat, k: nat, p: seq<nat>)
    requires LiveFinite(s, live) && IsTopK(Masked(s, live), k, p)
    ensures forall i :: 0 <= i < k ==> (p[i] < live <==> i < Min(live, k))
  {
    forall i | 0 <= i < k ensures p[i] < live <==> i < Min(live, k) {
      if i < live && p[i] >= live {
        var masked := Masked(s, live);
        var a, b := Upto(live), p[..i];
        forall x: nat | x < live ensures x in b {
          assert !AtLeast(masked[p[i]], masked[x]);
          var m :| 0 <= m < k && p[m] == x;
          assert m < i;
          assert b[m] == x;
        }
        Inject(a, b);
      } else if live <= i && p[i] < live {
        var a := p[..live] + [p[i]];
        forall j | 0 <= j < |a| ensures a[j] in Upto(live) {
          if j < live {
            var masked := Masked(s, live);
            assert AtLeast(masked[p[j]], masked[p[i]]);
          }
          assert Upto(live)[a[j]] == a[j];
        }
        Inject(a, Upto(live));
      }
    }
  }

  /** Top-k of the masked row is top-k of the live prefix, then dead indices. */
  lemma {:induction false} MaskedIsLiveTop(s: seq<Score>, live: nat, k: nat, p: seq<nat>)
    requires LiveFinite(s, live) && IsTopK(Masked(s, live), k, p)
    ensures IsTopK(s[..live], Min(live, k), p[..Min(live, k)])
    ensures forall i :: Min(live, k) <= i < k ==> live <= p[i]
  {
    LiveFirst(s, live, k, p);
    var m, masked, q := Min(live, k), Masked(s, live), p[..Min(live, k)];
    assert Within(q, live);
    forall i, j | 0 <= i < j < m ensures AtLeast(s[..live][q[i]], s[..live][q[j]]) {
      assert AtLeast(masked[p[i]], masked[p[j]]);
    }
    forall x: nat, i | x < live && 0 <= i < m && x !in q ensures AtLeast(s[..live][q[i]], s[..live][x]) {
      assert forall j :: 0 <= j < m ==> p[j] == q[j];
      assert x !in p;
      assert AtLeast(masked[p[i]], masked[x]);
    }
  }

  /** A live score of minus infinity may lose to a dead index: the contract then allows a row that
      names no live index in its first place. */
  lemma {:induction false} FiniteIsNeeded()
    ensures IsTopK(Masked([NegInf, Fin(1.0)], 1), 1, [1])
  {
  }

  // ----- Permutations -----

  lemma {:induction false} DistinctCounts(p: seq<nat>, x: nat)
    ensures Distinct(p) ==> multiset(p)[x] == if x in p then 1 else 0
  {
    if Distinct(p) {
      if p != [] {
        var n := |p| - 1;
        assert p == p[..n] + [p[n]];
        DistinctCounts(p[..n], x);
      }
    }
  }

  /** `n` distinct indices below `n` are all of them. */
  lemma {:induction false} AllPicked(p: seq<nat>, n: nat)
    requires |p| == n && Distinct(p) && Within(p, n)
    ensures multiset(p) == multiset(Upto(n))
  {
    var a, b := Elems(p), Elems(Upto(n));
    SetSize(p);
    SetSize(Upto(n));
    forall x | x in a ensures x in b {
      assert Upto(n)[x] == x;
    }
    SubsetSize(a, b);
    forall x: nat ensures multiset(p)[x] == multiset(Upto(n))[x] {
      DistinctCounts(p, x);
      DistinctCounts(Upto(n), x);
      assert x in p <==> x in a;
    }
  }

  function Gathered<T>(rows: seq<T>, p: seq<nat>): (r: seq<T>)
    requires forall i :: 0 <= i < |p| ==> p[i] < |rows|
    ensures |r| == |p| && forall i :: 0 <= i < |p| ==> r[i] == rows[p[i]]
  {
    seq(|p|, i requires 0 <= i < |p| => rows[p[i]])
  }

  function Without<T>(q: seq<T>, j: nat): (r: seq<T>)
    requires j < |q|
    ensures |r| == |q| - 1
  {
    q[..j] + q[j + 1..]
  }

  lemma {:induction false} TakeOut<T>(q: seq<T>, j: nat)
    requires j < |q|
    ensures multiset(q) == multiset(Without(q, j)) + multiset{q[j]}
    ensures multiset(Without(q, j)) == multiset(q) - multiset{q[j]}
  {
    assert q == q[..j] + [q[j]] + q[j + 1..];
  }

  lemma {:induction false} GatherWithout<T>(rows: seq<T>, q: seq<nat>, j: nat)
    requires j < |q| && Within(q, |rows|)
    ensures Within(Without(q, j), |rows|) && Gathered(rows, Without(q, j)) == Without(Gathered(rows, q), j)
  {
  }

  /** Gathering through a permutation permutes what is gathered. */
  lemma {:induction false} GatherPermutes<T>(rows: seq<T>, p: seq<nat>, q: seq<nat>)
    requires multiset(p) == multiset(q) && Within(p, |rows|) && Within(q, |rows|)
    ensures multiset(Gathered(rows, p)) == multiset(Gathered(rows, q))
    decreases |p|
  {
    if p == [] {
      assert |multiset(q)| == |q| && |multiset(p)| == 0;
    } else {
      assert p[0] in multiset(q);
      var j :| 0 <= j < |q| && q[j] == p[0];
      var a, b := Gathered(rows, p), Gathered(rows, q);
      TakeOut(p, 0);
      TakeOut(q, j);
      TakeOut(a, 0);
      TakeOut(b, j);
      GatherWithout(rows, p, 0);
      GatherWithout(rows, q, j);
      hide Without, Gathered;
      GatherPermutes(rows, Without(p, 0), Without(q, j));
    }
  }
}
