/** The sliding-window ring a decode step reads: which position each ring slot holds. */
module WindowRing {
  import opened Basics

  /** The latest position not after `pos` that slot `j` holds; negative when there is none yet. */
  function HeldBy(pos: int, j: int, win: Pos): (p: int)
  {
    pos - (pos - j) % win
  }

  /** A slot's entry: masked once for a position before the start, and once more for a slot past the
      current position. */
  function Entry(locs: seq<int>, pos: nat, j: nat, win: Pos): (loc: int)
    requires pos < |locs|
  {
    var p := HeldBy(pos, j, win);
    var clamped := if p < 0 then 0 else p;
    var ring := if p >= 0 then locs[clamped] else -1;
    if j <= pos then ring else -1
  }

  function Entries(locs: seq<int>, pos: nat, win: Pos): (r: seq<int>)
    requires pos < |locs|
  {
    seq(win, j requires 0 <= j < win => Entry(locs, pos, j, win))
  }

  /** Slot `j` resolves to the greatest position not after `pos` that is `j` modulo the window. */
  lemma {:induction false} HeldIsLatest(pos: int, j: nat, win: Pos, q: int)
    requires j < win
    ensures HeldBy(pos, j, win) % win == j && pos - win < HeldBy(pos, j, win) <= pos
    ensures q <= pos && q % win == j ==> q <= HeldBy(pos, j, win)
    ensures pos - win < q <= pos && q % win == j ==> q == HeldBy(pos, j, win)
  {
    var p := HeldBy(pos, j, win);
    var k := (pos - j) / win;
    assert pos - j == k * win + (pos - j) % win;
    assert p == k * win + j;
    Division(k, j, win);
    if q % win == j {
      var d := q / win - k;
      assert d * win == (q / win) * win - k * win;
      assert q - p == d * win;
      FarMultiple(d, win);
    }
  }

  /** The two masks are one: a slot past the current position has no position yet, and no other. */
  lemma {:induction false} MasksAgree(pos: nat, j: nat, win: Pos)
    requires j < win
    ensures HeldBy(pos, j, win) >= 0 <==> j <= pos
  {
    HeldIsLatest(pos, j, win, j);
    var p := HeldBy(pos, j, win);
    if j <= pos {
      Division(0, j, win);
      assert 0 * win + j == j;
    } else {
      var k := (pos - j) / win;
      assert pos - j == k * win + (pos - j) % win;
      assert p == k * win + j;
      FarMultiple(k, win);
    }
  }

  /** Two slots hold two positions. */
  lemma {:induction false} SlotsDiffer(pos: nat, i: nat, j: nat, win: Pos)
    requires i < win && j < win && i != j
    ensures HeldBy(pos, i, win) != HeldBy(pos, j, win)
  {
    HeldIsLatest(pos, i, win, 0);
    HeldIsLatest(pos, j, win, 0);
  }

  /** The unmasked slots hold the last `win` positions up to `pos`, each in the slot that is its
      remainder; a position before them, or after `pos`, is in none. */
  lemma {:induction false} WindowIsExact(pos: nat, win: Pos, q: int)
    ensures (exists j :: 0 <= j < win && j <= pos && HeldBy(pos, j, win) == q) <==> 0 <= q && pos - win < q <= pos
    ensures 0 <= q && pos - win < q <= pos ==> q % win <= pos && HeldBy(pos, q % win, win) == q
  {
    if 0 <= q && pos - win < q <= pos {
      HeldIsLatest(pos, q % win, win, q);
      MasksAgree(pos, q % win, win);
    }
    if j :| 0 <= j < win && j <= pos && HeldBy(pos, j, win) == q {
      HeldIsLatest(pos, j, win, 0);
      MasksAgree(pos, j, win);
    }
  }

  /** What the attention of a decode step is given: the location of each position of the window at
      its remainder, and -1 in every slot that no position has reached. */
  lemma {:induction false} EntriesAreWindow(locs: seq<int>, pos: nat, win: Pos, j: nat)
    requires j < win && pos < |locs|
    ensures j > pos ==> Entries(locs, pos, win)[j] == -1
    ensures j <= pos ==>
        exists q :: 0 <= q <= pos && pos - win < q && q % win == j && Entries(locs, pos, win)[j] == locs[q]
  {
    MasksAgree(pos, j, win);
    HeldIsLatest(pos, j, win, 0);
    if j <= pos {
      assert Entries(locs, pos, win)[j] == locs[HeldBy(pos, j, win)];
    }
  }
}
