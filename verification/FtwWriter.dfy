/** The streaming writer: tensors go into one byte stream, cut into shard files at the limit. */
module FtwWriter {
  import opened Basics
  import opened FtwFormat

  class FTWWriter {
    const shardLimit: nat
    var tensors: seq<Entry>
    var shards: seq<Shard>      // closed shards
    var global: nat             // bytes of the region so far, padding included
    var isOpen: bool            // a shard file is open
    var shardIdx: int
    var shardStart: nat
    var cur: nat                // bytes in the open shard
    var files: seq<seq<Byte>>   // the shard files on disk, the open one last
    ghost var region: seq<Byte>
    ghost var written: seq<Tensor>

    /** Closed shards plus the record the open one would get if it were closed now. */
    ghost function AllShards(): seq<Shard>
      reads `shards, `isOpen, `shardIdx, `shardStart, `cur
    {
      if isOpen then shards + [Shard(shardIdx, shardStart, cur)] else shards
    }

    /** What holds at every byte of the stream, also in the middle of a tensor. */
    ghost predicate Streaming()
      reads `shards, `global, `isOpen, `shardIdx, `shardStart, `cur, `files, `region
    {
      && 0 < shardLimit && Aligned(shardLimit)
      && shardIdx == |files| - 1
      && global == |region|
      && Laid(files, AllShards(), region, shardLimit)
      && (!isOpen ==> Aligned(global))
    }

    ghost predicate Valid()
      reads this
    {
      && Streaming()
      && region == Region(written)
      && tensors == Entries(written)
      && AllWhole(tensors, AllShards(), shardLimit)
    }

    constructor (shardLimit: nat)
      requires 0 < shardLimit && Aligned(shardLimit)
      ensures Valid() && written == [] && this.shardLimit == shardLimit
    {
      this.shardLimit := shardLimit;
      tensors, shards, global, isOpen, shardIdx, shardStart, cur := [], [], 0, false, -1, 0, 0;
      files, region, written := [], [], [];
    }

    method Roll()
      requires Streaming() && Aligned(global)
      modifies this
      ensures Streaming() && isOpen && cur == 0 && shardStart == global
      ensures AllShards() == old(AllShards()) + [Shard(|old(files)|, global, 0)]
      ensures ExtendsLayout(old(AllShards()), AllShards())
      ensures unchanged(`tensors, `global, `region, `written)
    {
      NewShardFits(files, AllShards(), region, shardLimit);
      if isOpen {
        shards := shards + [Shard(shardIdx, shardStart, cur)];
      }
      shardIdx := shardIdx + 1;
      shardStart := global;
      cur := 0;
      files := files + [[]];
      isOpen := true;
    }

    /** Appends to the open shard, which has room. */
    method Append(data: seq<Byte>)
      requires Streaming() && isOpen && cur + |data| <= shardLimit
      modifies `files, `cur, `global, `region
      ensures Streaming() && region == old(region) + data
      ensures cur == old(cur) + |data|
      ensures ExtendsLayout(old(AllShards()), AllShards())
    {
      LastShardGrows(files, AllShards(), region, data, shardLimit);
      files := files[shardIdx := files[shardIdx] + data];
      cur := cur + |data|;
      global := global + |data|;
      region := region + data;
      assert AllShards() == old(AllShards())[..shardIdx] + [Shard(shardIdx, shardStart, cur)];
    }

    /** One round of the raw write: rolls if the open shard is full, then fills what room there is. */
    method WriteSome(data: seq<Byte>) returns (take: nat)
      requires Streaming() && isOpen && data != []
      modifies this
      ensures Streaming() && isOpen
      ensures 0 < take <= |data| && region == old(region) + data[..take]
      ensures take == |data| || cur == shardLimit
      ensures old(cur) < shardLimit ==> unchanged(`shards, `shardStart, `shardIdx) && cur == old(cur) + take
      ensures old(cur) + |data| <= shardLimit ==>
        take == |data| && unchanged(`shards, `shardStart, `shardIdx) && cur == old(cur) + take
      ensures ExtendsLayout(old(AllShards()), AllShards())
      ensures unchanged(`tensors, `written)
    {
      ghost var before := AllShards();
      OpenShard();
      if cur == shardLimit {
        AlignedSum(shardStart, shardLimit);
        Roll();
      }
      take := if |data| < shardLimit - cur then |data| else shardLimit - cur;
      ghost var rolled := AllShards();
      Append(data[..take]);
      ExtendsTransitive(before, rolled, AllShards());
    }

    /** The open shard ends where the region ends and is within the limit. */
    lemma {:induction false} OpenShard()
      requires Streaming() && isOpen
      ensures Aligned(shardStart) && shardStart + cur == global == |region| && cur <= shardLimit
    {
      assert AllShards()[|shards|] == Shard(shardIdx, shardStart, cur);
    }

    /** Writes `data` into the stream, rolling at the limit. Nothing rolls when it fits. */
    method WriteRaw(data: seq<Byte>)
      requires Streaming() && (isOpen || Aligned(global))
      modifies this
      ensures Streaming() && isOpen
      ensures region == old(region) + data
      ensures old(isOpen) && old(cur) + |data| <= shardLimit ==>
        unchanged(`shards, `shardStart, `shardIdx) && cur == old(cur) + |data|
      ensures ExtendsLayout(old(AllShards()), AllShards())
      ensures unchanged(`tensors, `written)
    {
      hide Streaming, ExtendsLayout, AllShards;
      ghost var before := AllShards();
      ghost var region0 := region;
      ExtendsItself(before);
      if !isOpen {
        Roll();
      }
      var off, n := 0, |data|;
      while off < n
        invariant 0 <= off <= n
        invariant Streaming() && isOpen
        invariant region == region0 + data[..off]
        invariant old(isOpen) && old(cur) + n <= shardLimit ==>
          unchanged(`shards, `shardStart, `shardIdx) && cur == old(cur) + off
        invariant ExtendsLayout(before, AllShards())
        invariant unchanged(`tensors, `written)
        decreases n - off
      {
        ghost var mid := AllShards();
        var take := WriteSome(data[off..]);
        ExtendsTransitive(before, mid, AllShards());
        assert data[..off] + data[off..][..take] == data[..off + take];
        off := off + take;
      }
      assert data[..off] == data;
    }

    /** Pads to the next aligned offset, always inside the open shard. */
    method Pad()
      requires Streaming() && isOpen
      modifies this
      ensures Streaming() && isOpen && shardStart == old(shardStart)
      ensures region == old(region) + Zeros(AlignUp(|old(region)|) - |old(region)|)
      ensures ExtendsLayout(old(AllShards()), AllShards())
      ensures unchanged(`tensors, `written)
    {
      hide Streaming, ExtendsLayout, AllShards;
      OpenShard();
      PaddingFits();
      var pad := AlignUp(global) - global;
      if pad > 0 {
        WriteRaw(Zeros(pad));
      } else {
        ExtendsItself(AllShards());
      }
    }

    /** A tensor that fits a shard gets one with room for it; the very first one opens a shard. */
    method MakeRoom(nbytes: nat)
      requires Valid()
      modifies this
      ensures Streaming() && isOpen && Aligned(global)
      ensures nbytes <= shardLimit ==> cur + nbytes <= shardLimit
      ensures if old(isOpen) && (nbytes > shardLimit || old(cur) + nbytes <= shardLimit)
              then unchanged(`shards, `shardIdx, `shardStart, `cur) else cur == 0 && shardStart == global
      ensures ExtendsLayout(old(AllShards()), AllShards())
      ensures unchanged(`tensors, `written, `region, `global)
    {
      Boundary();
      hide Valid, Streaming, ExtendsLayout, AllShards;
      if !isOpen || (nbytes <= shardLimit && cur + nbytes > shardLimit) {
        Roll();
      } else {
        ExtendsItself(AllShards());
      }
    }

    /** Streams one tensor: its bytes, whole in one shard when they fit one, then padding. */
    method AddTensor(t: Tensor)
      requires Valid()
      modifies this
      ensures Valid() && written == old(written) + [t]
    {
      ghost var layout := AllShards();
      Boundary();
      hide *;
      MakeRoom(|t.bytes|);
      OpenShard();
      var globalOff := global;
      ghost var roomy := AllShards();
      WriteAndPad(t.bytes);
      ExtendsTransitive(layout, roomy, AllShards());
      Record(t, globalOff, layout);
    }

    /** Appends the index entry of a tensor whose padded bytes have just gone out. */
    method Record(t: Tensor, globalOff: nat, ghost layout: seq<Shard>)
      requires Streaming() && isOpen && globalOff == |Region(written)|
      requires region == Region(written) + Padded(t.bytes) && tensors == Entries(written)
      requires AllWhole(tensors, layout, shardLimit) && ExtendsLayout(layout, AllShards())
      requires |t.bytes| <= shardLimit ==> shardStart <= globalOff
      modifies `tensors, `written
      ensures Valid() && written == old(written) + [t]
    {
      hide Streaming, ExtendsLayout;
      var e := Entry(t.name, t.kind, t.dtype, t.elsize, t.shape, globalOff, |t.bytes|);
      OneMore(written, t, e);
      OpenShard();
      if e.nbytes <= shardLimit {
        assert InShard(e, AllShards()[|shards|]);
      }
      StillWhole(tensors, layout, AllShards(), shardLimit);
      assert (tensors + [e])[..|tensors|] == tensors;
      tensors := tensors + [e];
      written := written + [t];
    }

    method WriteAndPad(bytes: seq<Byte>)
      requires Streaming() && isOpen && Aligned(global)
      modifies this
      ensures Streaming() && isOpen && region == old(region) + Padded(bytes)
      ensures old(cur) + |bytes| <= shardLimit ==> shardStart == old(shardStart)
      ensures ExtendsLayout(old(AllShards()), AllShards())
      ensures unchanged(`tensors, `written)
    {
      hide Streaming, ExtendsLayout, AllShards;
      OpenShard();
      ghost var before := AllShards();
      PaddedStream(region, bytes);
      WriteRaw(bytes);
      ghost var unpadded := AllShards();
      Pad();
      ExtendsTransitive(before, unpadded, AllShards());
    }

    /** Between tensors the stream is at an aligned offset. */
    lemma {:induction false} Boundary()
      requires Valid()
      ensures Streaming() && Aligned(global) && global == |region| && region == Region(written)
      ensures tensors == Entries(written) && AllWhole(tensors, AllShards(), shardLimit)
    {
    }

    /** Padding never rolls a shard: the open shard always has room up to the next aligned offset. */
    lemma {:induction false} PaddingFits()
      requires Streaming() && isOpen
      ensures cur + (AlignUp(global) - global) <= shardLimit
    {
      OpenShard();
      AlignUpShift(shardStart, cur);
      AlignUpLeast(cur, shardLimit);
    }

    method Finalize() returns (index: Index)
      requires Valid()
      modifies this
      ensures Valid() && unchanged(`written, `files)
      ensures Encodes(Checkpoint(index, files), written, shardLimit)
    {
      if isOpen {
        shards := shards + [Shard(shardIdx, shardStart, cur)];
        isOpen := false;
      }
      index := Index(shardLimit, global, tensors, shards);
    }
  }

  /** Only the last shard may have grown, and new ones may follow. */
  ghost predicate ExtendsLayout(before: seq<Shard>, after: seq<Shard>) {
    && |before| <= |after|
    && forall i :: 0 <= i < |before| ==> before[i].off == after[i].off && before[i].nbytes <= after[i].nbytes
  }

  lemma {:induction false} ExtendsItself(a: seq<Shard>)
    ensures ExtendsLayout(a, a)
  {
  }

  lemma {:induction false} ExtendsTransitive(a: seq<Shard>, b: seq<Shard>, c: seq<Shard>)
    ensures ExtendsLayout(a, b) && ExtendsLayout(b, c) ==> ExtendsLayout(a, c)
  {
  }

  lemma {:induction false} NewShardFits(files: seq<seq<Byte>>, shards: seq<Shard>, region: seq<Byte>, limit: nat)
    requires Laid(files, shards, region, limit) && Aligned(|region|)
    ensures Laid(files + [[]], shards + [Shard(|files|, |region|, 0)], region, limit) && |files| == |shards|
  {
    if shards != [] {
      EachShardLaid(files, shards, region, limit, 0);
    }
    assert (files + [[]])[..|files|] == files && (shards + [Shard(|files|, |region|, 0)])[..|shards|] == shards;
    assert region[..|region|] == region;
  }

  lemma {:induction false} LastShardGrows(files: seq<seq<Byte>>, shards: seq<Shard>, region: seq<Byte>,
        data: seq<Byte>, limit: nat)
    requires Laid(files, shards, region, limit) && |shards| > 0
    requires shards[|shards| - 1].nbytes + |data| <= limit
    ensures var last := |shards| - 1;
      var after := shards[..last] + [Shard(last, shards[last].off, shards[last].nbytes + |data|)];
      |files| == |shards| && Laid(files[last := files[last] + data], after, region + data, limit)
  {
    var last := |shards| - 1;
    EachShardLaid(files, shards, region, limit, last);
    var s := shards[last];
    assert files[last := files[last] + data][..last] == files[..last];
    assert (region + data)[..s.off] == region[..s.off];
    assert (region + data)[s.off..] == region[s.off..] + data;
  }

  lemma {:induction false} StillWhole(es: seq<Entry>, before: seq<Shard>, after: seq<Shard>, limit: nat)
    requires AllWhole(es, before, limit) && ExtendsLayout(before, after)
    ensures AllWhole(es, after, limit)
  {
    if es != [] {
      var e := es[|es| - 1];
      StillWhole(es[..|es| - 1], before, after, limit);
      if e.nbytes <= limit {
        var i :| 0 <= i < |before| && InShard(e, before[i]);
        assert InShard(e, after[i]);
      }
    }
  }

  // ----- When the write loop ends -----

  /** The loop state of the raw write: how much of the data is out, and the open shard's fill. */
  datatype LoopState = LoopState(off: int, cur: int)

  function LoopStep(s: LoopState, n: int, limit: int): LoopState {
    var cur := if s.cur == limit then 0 else s.cur;
    var take := if n - s.off < limit - cur then n - s.off else limit - cur;
    LoopState(s.off + take, cur + take)
  }

  /** The state after `k` more iterations; a finished loop stays put. */
  function Iterate(s: LoopState, n: int, limit: int, k: nat): LoopState
    decreases k
  {
    if k == 0 || s.off >= n then s else Iterate(LoopStep(s, n, limit), n, limit, k - 1)
  }

  lemma {:induction false} StuckWithoutRoom(s: LoopState, n: nat, limit: int, k: nat)
    requires limit <= 0 < n && s.off <= 0 && limit <= s.cur <= 0
    ensures Iterate(s, n, limit, k).off <= 0
    decreases k
  {
    if k > 0 {
      StuckWithoutRoom(LoopStep(s, n, limit), n, limit, k - 1);
    }
  }

  lemma {:induction false} EndsWithRoom(s: LoopState, n: nat, limit: int, k: nat)
    requires 0 < limit && 0 <= s.cur <= limit && s.off <= n <= s.off + k
    ensures Iterate(s, n, limit, k).off == n
    decreases k
  {
    if s.off < n {
      EndsWithRoom(LoopStep(s, n, limit), n, limit, k - 1);
    }
  }

  /** For every limit that the writer's own assertion admits, zero and negative ones included,
      writing `n` bytes into a fresh shard ends exactly when the limit is positive or there is
      nothing to write. */
  lemma {:induction false} WriteLoopEndsIff(n: nat, limit: int)
    requires Aligned(limit)
    ensures (exists k: nat :: Iterate(LoopState(0, 0), n, limit, k).off >= n) <==> (0 < limit || n == 0)
  {
    if 0 < limit {
      EndsWithRoom(LoopState(0, 0), n, limit, n);
    } else if n == 0 {
      assert Iterate(LoopState(0, 0), n, limit, 0).off >= n;
    } else {
      forall k: nat ensures Iterate(LoopState(0, 0), n, limit, k).off < n {
        StuckWithoutRoom(LoopState(0, 0), n, limit, k);
      }
    }
  }
}
