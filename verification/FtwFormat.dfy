/** The FTW checkpoint format: alignment arithmetic, the logical byte region that a list of
    tensors occupies, the index entries that describe it, and how shard files slice it. */
module FtwFormat {
  import opened Basics

  /** Block alignment of tensor starts and of shard cuts. */
  const ALIGN: nat := 4096


  predicate Aligned(n: int) {
    n % ALIGN == 0
  }

  /** The least aligned number that is at least `n`. */
  function AlignUp(n: nat): (r: nat)
    ensures Aligned(r) && n <= r < n + ALIGN
    ensures Aligned(n) ==> r == n
  {
    (n + ALIGN - 1) / ALIGN * ALIGN
  }

  /** The greatest aligned number that is at most `n`. */
  function AlignDown(n: nat): (r: nat)
    ensures Aligned(r) && r <= n < r + ALIGN
  {
    n / ALIGN * ALIGN
  }

  lemma {:induction false} AlignedSum(a: int, b: int)
    ensures Aligned(a) ==> (Aligned(a + b) <==> Aligned(b))
    ensures Aligned(a) ==> (Aligned(a - b) <==> Aligned(b))
  {
    if Aligned(a) {
      var k, q, r := a / ALIGN, b / ALIGN, b % ALIGN;
      Division(k + q, r, ALIGN);
      Division(k - q, 0, ALIGN);
      Division(k - q - 1, if r == 0 then 0 else ALIGN - r, ALIGN);
    }
  }

  lemma {:induction false} AlignUpShift(a: nat, n: nat)
    ensures Aligned(a) ==> AlignUp(a + n) == a + AlignUp(n)
  {
  }

  lemma {:induction false} AlignUpLeast(n: nat, m: nat)
    ensures Aligned(m) && n <= m ==> AlignUp(n) <= m
  {
  }

  /** What a shard limit must be. */
  type Limit = n: nat | 0 < n && Aligned(n) witness ALIGN

  /** A tensor handed to the writer; `elsize` is the width of one `dtype` element. */
  datatype Tensor = Tensor(name: string, kind: string, dtype: string, elsize: nat, shape: seq<nat>, bytes: seq<Byte>)

  /** One record of the index's tensor list. */
  datatype Entry = Entry(name: string, kind: string, dtype: string, elsize: nat, shape: seq<nat>, off: nat, nbytes: nat)

  /** One record of the index's shard list; `file` is the number in the shard's file name. */
  datatype Shard = Shard(file: int, off: nat, nbytes: nat) {
    function End(): nat { off + nbytes }
  }

  datatype Index = Index(shardLimit: nat, total: nat, tensors: seq<Entry>, shards: seq<Shard>)

  /** A finished checkpoint directory: the index and the contents of the shard files. */
  datatype Checkpoint = Checkpoint(index: Index, files: seq<seq<Byte>>)

  function Zeros(n: nat): (z: seq<Byte>)
    ensures |z| == n
  {
    seq(n, _ => 0)
  }

  function Padded(bytes: seq<Byte>): (p: seq<Byte>)
    ensures |p| == AlignUp(|bytes|)
  {
    bytes + Zeros(AlignUp(|bytes|) - |bytes|)
  }

  /** The logical byte region of a list of tensors: each one padded, in call order. */
  function Region(ts: seq<Tensor>): (r: seq<Byte>)
    ensures Aligned(|r|)
  {
    if ts == [] then [] else
      var front := Region(ts[..|ts| - 1]);
      AlignedSum(|front|, AlignUp(|ts[|ts| - 1].bytes|));
      front + Padded(ts[|ts| - 1].bytes)
  }

  function EntryAt(t: Tensor, off: nat): Entry {
    Entry(t.name, t.kind, t.dtype, t.elsize, t.shape, off, |t.bytes|)
  }

  /** The tensor list of the index: every start is the length of the region written before it. */
  function Entries(ts: seq<Tensor>): (es: seq<Entry>)
    ensures |es| == |ts|
  {
    if ts == [] then [] else
      Entries(ts[..|ts| - 1]) + [EntryAt(ts[|ts| - 1], |Region(ts[..|ts| - 1])|)]
  }

  lemma {:induction false} OneMore(ts: seq<Tensor>, t: Tensor, e: Entry)
    requires e == Entry(t.name, t.kind, t.dtype, t.elsize, t.shape, |Region(ts)|, |t.bytes|)
    ensures Region(ts + [t]) == Region(ts) + Padded(t.bytes)
    ensures Entries(ts + [t]) == Entries(ts) + [e]
  {
    assert (ts + [t])[..|ts|] == ts;
  }

  lemma {:induction false} PaddedStream(before: seq<Byte>, bytes: seq<Byte>)
    requires Aligned(|before|)
    ensures var pad := AlignUp(|before + bytes|) - |before + bytes|;
      before + bytes + Zeros(pad) == before + Padded(bytes) && (pad == 0 ==> before + bytes == before + Padded(bytes))
  {
    AlignUpShift(|before|, |bytes|);
  }

  lemma {:induction false} PrefixSlice(a: seq<Byte>, b: seq<Byte>, i: nat, j: nat)
    requires i <= j <= |a|
    ensures (a + b)[i..j] == a[i..j]
  {
  }

  lemma {:induction false} LastTensor(ts: seq<Tensor>)
    requires ts != []
    ensures var front, t := ts[..|ts| - 1], ts[|ts| - 1];
            && Region(ts) == Region(front) + Padded(t.bytes) && Aligned(|Region(front)|)
            && Entries(ts) == Entries(front) + [EntryAt(t, |Region(front)|)]
  {
  }

  lemma {:induction false} PaddedPrefix(a: seq<Byte>, at: nat, bytes: seq<Byte>)
    requires at + AlignUp(|bytes|) <= |a| && a[at..at + AlignUp(|bytes|)] == Padded(bytes)
    ensures a[at..at + |bytes|] == bytes
  {
    assert a[at..at + |bytes|] == a[at..at + AlignUp(|bytes|)][..|bytes|];
  }

  /** Entry `k` describes tensor `k`, starts aligned, and its padded bytes are in the region where it
      says. */
  lemma {:induction false} EntryLocatesTensor(ts: seq<Tensor>, k: nat)
    requires k < |ts|
    ensures var e := Entries(ts)[k];
      && e == EntryAt(ts[k], e.off)
      && e.off % 4096 == 0
      && e.off + AlignUp(e.nbytes) <= |Region(ts)|
      && Region(ts)[e.off..e.off + AlignUp(e.nbytes)] == Padded(ts[k].bytes)
      && Region(ts)[e.off..e.off + e.nbytes] == ts[k].bytes
  {
    hide *;
    var n := |ts| - 1;
    if k < n {
      EntryLocatesTensor(ts[..n], k);
      StillLocated(ts, k);
    } else {
      RegionLasts(ts, n);
      PaddedPrefix(Region(ts), Entries(ts)[n].off, ts[n].bytes);
    }
  }

  /** A tensor more leaves the tensors before it where they are. */
  lemma {:induction false} StillLocated(ts: seq<Tensor>, k: nat)
    requires k < |ts| - 1
    ensures var front := ts[..|ts| - 1];
      && Entries(ts)[k] == Entries(front)[k] && front[k] == ts[k] && |Region(front)| <= |Region(ts)|
      && forall a: nat, b: nat :: a <= b <= |Region(front)| ==> Region(ts)[a..b] == Region(front)[a..b]
  {
    LastTensor(ts);
    var front := ts[..|ts| - 1];
    hide Region, Entries, Padded;
    forall a: nat, b: nat | a <= b <= |Region(front)| ensures Region(ts)[a..b] == Region(front)[a..b] {
      PrefixSlice(Region(front), Padded(ts[|ts| - 1].bytes), a, b);
    }
  }

  /** The last tensor's padded bytes end the region. */
  lemma {:induction false} RegionLasts(ts: seq<Tensor>, n: nat)
    requires |ts| == n + 1
    ensures var e := Entries(ts)[n];
      && e == EntryAt(ts[n], e.off) && e.off % 4096 == 0 && e.off == |Region(ts[..n])| && |Entries(ts)| == |ts|
      && e.nbytes == |ts[n].bytes| && e.off + AlignUp(|ts[n].bytes|) == |Region(ts)|
      && Region(ts)[e.off..e.off + AlignUp(|ts[n].bytes|)] == Padded(ts[n].bytes)
      && |Region(ts[..n])| <= |Region(ts)|
  {
    LastTensor(ts);
  }

  /** What follows a tensor up to the next block is zero. */
  lemma {:induction false} PaddingIsZero(ts: seq<Tensor>, k: nat, i: nat)
    requires k < |ts| && |ts[k].bytes| <= i < AlignUp(|ts[k].bytes|)
    ensures Entries(ts)[k].off + i < |Region(ts)| && Region(ts)[Entries(ts)[k].off + i] == 0
  {
    EntryLocatesTensor(ts, k);
    var e := Entries(ts)[k];
    assert Padded(ts[k].bytes)[i] == 0;
    hide Region, Entries, Padded;
    assert Region(ts)[e.off..e.off + AlignUp(e.nbytes)][i] == Region(ts)[e.off + i];
  }

  /** Tensors occupy the region back to back: each padded extent ends where the next one starts. */
  lemma {:induction false} EntriesTileRegion(ts: seq<Tensor>, k: nat)
    requires k < |ts|
    ensures var e := Entries(ts)[k];
      e.off + AlignUp(e.nbytes) == if k + 1 < |ts| then Entries(ts)[k + 1].off else |Region(ts)|
  {
    var front := ts[..|ts| - 1];
    if k < |ts| - 1 {
      EntriesTileRegion(front, k);
    }
  }

  /** The shard files hold exactly the region: shards are numbered in order, each starts at an
      aligned offset where the previous one ended, none exceeds the limit, and the last one ends
      with the region. */
  ghost predicate Laid(files: seq<seq<Byte>>, shards: seq<Shard>, region: seq<Byte>, limit: nat) {
    if shards == [] || files == [] then shards == [] && files == [] && region == []
    else
      var last := |shards| - 1;
      var s := shards[last];
      && |files| == |shards|
      && s.file == last && Aligned(s.off) && s.nbytes <= limit
      && s.End() == |region|
      && files[last] == region[s.off..]
      && Laid(files[..last], shards[..last], region[..s.off], limit)
  }

  /** The same for every shard at once. */
  lemma {:induction false} EachShardLaid(files: seq<seq<Byte>>, shards: seq<Shard>, region: seq<Byte>, limit: nat,
        i: nat)
    requires Laid(files, shards, region, limit) && i < |shards|
    ensures |files| == |shards|
    ensures var s := shards[i];
      && s.file == i && Aligned(s.off) && s.nbytes <= limit
      && s.End() == (if i + 1 < |shards| then shards[i + 1].off else |region|)
      && (i == 0 ==> s.off == 0)
      && s.End() <= |region|
      && files[i] == region[s.off..s.End()]
      && (Aligned(|region|) ==> Aligned(s.nbytes))
  {
    var last := |shards| - 1;
    var s := shards[last];
    AlignedSum(s.off, s.nbytes);
    if i < last {
      EachShardLaid(files[..last], shards[..last], region[..s.off], limit, i);
    }
  }

  ghost predicate InShard(e: Entry, s: Shard) {
    s.off <= e.off && e.off + e.nbytes <= s.End()
  }

  /** A tensor no larger than a shard lies whole in one shard. */
  ghost predicate Whole(e: Entry, shards: seq<Shard>, limit: nat) {
    e.nbytes <= limit ==> exists i :: 0 <= i < |shards| && InShard(e, shards[i])
  }

  ghost predicate AllWhole(es: seq<Entry>, shards: seq<Shard>, limit: nat) {
    es != [] ==> AllWhole(es[..|es| - 1], shards, limit) && Whole(es[|es| - 1], shards, limit)
  }

  lemma {:induction false} EachWhole(es: seq<Entry>, shards: seq<Shard>, limit: nat, k: nat)
    requires AllWhole(es, shards, limit) && k < |es|
    ensures Whole(es[k], shards, limit)
  {
    if k < |es| - 1 {
      EachWhole(es[..|es| - 1], shards, limit, k);
    }
  }

  /** What a finished checkpoint of the tensors `ts` is. */
  ghost predicate Encodes(ck: Checkpoint, ts: seq<Tensor>, limit: nat) {
    && ck.index.shardLimit == limit
    && ck.index.total == |Region(ts)|
    && ck.index.tensors == Entries(ts)
    && Laid(ck.files, ck.index.shards, Region(ts), limit)
    && AllWhole(ck.index.tensors, ck.index.shards, limit)
  }
}
