/** The process tree below a root, from a snapshot of parent links. */
module ProcTree {

  /** `pid` reaches `root` in `n` parent links. */
  ghost predicate Reaches(parents: map<int, int>, root: int, pid: int, n: nat)
    decreases n
  {
    if n == 0 then pid == root else pid in parents && Reaches(parents, root, parents[pid], n - 1)
  }

  ghost predicate InTree(parents: map<int, int>, root: int, pid: int) {
    exists n: nat :: Reaches(parents, root, pid, n)
  }

  ghost predicate Sound(parents: map<int, int>, root: int, result: set<int>) {
    root in result && forall pid :: pid in result ==> InTree(parents, root, pid)
  }

  /** Every child of a member among `pids` is a member. */
  ghost predicate ClosedOn(parents: map<int, int>, pids: set<int>, result: set<int>)
    requires pids <= parents.Keys
  {
    forall pid :: pid in pids && parents[pid] in result ==> pid in result
  }

  lemma {:induction false} RootInTree(parents: map<int, int>, root: int)
    ensures InTree(parents, root, root)
  {
    assert Reaches(parents, root, root, 0);
  }

  lemma {:induction false} ChildInTree(parents: map<int, int>, root: int, pid: int)
    requires pid in parents && InTree(parents, root, parents[pid])
    ensures InTree(parents, root, pid)
  {
    var n: nat :| Reaches(parents, root, parents[pid], n);
    assert Reaches(parents, root, pid, n + 1);
  }

  lemma {:induction false} ClosedHasAll(parents: map<int, int>, root: int, result: set<int>, pid: int, n: nat)
    requires root in result && ClosedOn(parents, parents.Keys, result) && Reaches(parents, root, pid, n)
    ensures pid in result
    decreases n
  {
    if n > 0 { ClosedHasAll(parents, root, result, parents[pid], n - 1); }
  }

  /** Sweeps over the links in any order, each sweep seeing what it has added so far, until one adds
      nothing; cycles among the links do no harm. */
  method Tree(parents: map<int, int>, root: int) returns (result: set<int>)
    ensures forall pid :: pid in result <==> InTree(parents, root, pid)
  {
    result := {root};
    RootInTree(parents, root);
    var changed := true;
    while changed
      invariant Sound(parents, root, result)
      invariant !changed ==> ClosedOn(parents, parents.Keys, result)
      decreases |parents.Keys - result|, changed
    {
      changed := false;
      ghost var was := result;
      var rest: set<int> := parents.Keys;
      while rest != {}
        invariant rest <= parents.Keys && was <= result && Sound(parents, root, result)
        invariant if changed then parents.Keys - result < parents.Keys - was else was == result
        invariant !changed ==> ClosedOn(parents, parents.Keys - rest, result)
        decreases |rest|
      {
        assert (forall p :: p !in rest) ==> rest == {};
        var pid :| pid in rest;
        rest := rest - {pid};
        if parents[pid] in result && pid !in result {
          ChildInTree(parents, root, pid);
          result := result + {pid};
          changed := true;
          assert pid in parents.Keys - was;
        }
      }
      if changed { Smaller(parents.Keys - result, parents.Keys - was); }
    }
    forall pid | InTree(parents, root, pid) ensures pid in result {
      var n: nat :| Reaches(parents, root, pid, n);
      ClosedHasAll(parents, root, result, pid, n);
    }
  }

  lemma {:induction false} Smaller(a: set<int>, b: set<int>)
    ensures a < b ==> |a| < |b|
  {
    if a < b {
      assert b == a + (b - a) && b - a != {};
    }
  }

  /** A process whose ancestors lead nowhere near the root, or round a cycle without it, is out. */
  lemma {:induction false} CyclesStayOut(parents: map<int, int>, root: int, cycle: set<int>, pid: int)
    requires root !in cycle && pid in cycle && forall p :: p in cycle && p in parents ==> parents[p] in cycle
    ensures !InTree(parents, root, pid)
  {
    forall n: nat ensures !Reaches(parents, root, pid, n) {
      StaysIn(parents, root, cycle, pid, n);
    }
  }

  lemma {:induction false} StaysIn(parents: map<int, int>, root: int, cycle: set<int>, pid: int, n: nat)
    requires root !in cycle && pid in cycle && forall p :: p in cycle && p in parents ==> parents[p] in cycle
    ensures !Reaches(parents, root, pid, n)
    decreases n
  {
    if n > 0 && pid in parents { StaysIn(parents, root, cycle, parents[pid], n - 1); }
  }
}
