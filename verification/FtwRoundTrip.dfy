/** A checkpoint written tensor by tensor and iterated back. */
module FtwRoundTrip {
  import opened Basics
  import opened FtwFormat
  import opened FtwReader
  import opened FtwReadInto
  import opened FtwLoad
  import opened FtwWriter

  /** Adds tensors one after another. */
  method AddAll(w: FTWWriter, ts: seq<Tensor>)
    requires w.Valid()
    modifies w
    ensures w.Valid() && w.written == old(w.written) + ts
  {
    ghost var before := w.written;
    assert before + ts[..0] == before && ts[..|ts|] == ts;
    hide *;
    var k := 0;
    while k < |ts|
      invariant k <= |ts| && w.Valid() && w.written == before + ts[..k]
    {
      OneMoreTensor(before, ts, k);
      w.AddTensor(ts[k]);
      k := k + 1;
    }
  }

  lemma {:induction false} OneMoreTensor(before: seq<Tensor>, ts: seq<Tensor>, k: nat)
    requires k < |ts|
    ensures before + ts[..k + 1] == before + ts[..k] + [ts[k]]
  {
  }

  method WriteAll(ts: seq<Tensor>, shardLimit: Limit) returns (ck: Checkpoint)
    ensures Encodes(ck, ts, shardLimit)
  {
    hide *;
    var w := new FTWWriter(shardLimit);
    AddAll(w, ts);
    assert [] + ts == ts;
    var index := w.Finalize();
    ck := Checkpoint(index, w.files);
  }

  /** Nothing is missing of files nobody truncated. */
  lemma {:induction false} IntactIsPresent(files: seq<seq<Byte>>, shards: seq<Shard>, region: seq<Byte>, limit: nat,
        from: nat, to: nat)
    requires Laid(files, shards, region, limit)
    ensures Present(files, shards, from, to)
  {
    forall i | 0 <= i < |shards| && Max(from, shards[i].off) < Min(to, shards[i].End())
      ensures i < |files| && Min(to, shards[i].End()) - shards[i].off <= |files[i]|
    {
      EachShardLaid(files, shards, region, limit, i);
    }
  }

  /** Without kinds every entry is kept. */
  predicate Keeps(kinds: set<string>, kind: string) { kinds == {} || kind in kinds }

  /** The entries of the wanted kinds, in index order. */
  function Wanted(es: seq<Entry>, kinds: set<string>): (r: seq<nat>)
    ensures forall i :: 0 <= i < |r| ==> r[i] < |es| && Keeps(kinds, es[r[i]].kind)
  {
    if es == [] then [] else
      var n := |es| - 1;
      Wanted(es[..n], kinds) + if Keeps(kinds, es[n].kind) then [n] else []
  }

  /** Wanted entries are those whose kind was asked for, or all if none was, each once, in order. */
  lemma {:induction false} WantedAll(es: seq<Entry>, kinds: set<string>)
    ensures forall k: nat :: k in Wanted(es, kinds) <==> k < |es| && (kinds == {} || es[k].kind in kinds)
    ensures forall i, j :: 0 <= i < j < |Wanted(es, kinds)| ==> Wanted(es, kinds)[i] < Wanted(es, kinds)[j]
  {
    if es != [] {
      var n := |es| - 1;
      WantedAll(es[..n], kinds);
      forall k: nat ensures k in Wanted(es, kinds) <==> k < |es| && (kinds == {} || es[k].kind in kinds) {
        if k < n { assert es[..n][k] == es[k]; }
      }
    }
  }

  lemma {:induction false} WantedTensors(ts: seq<Tensor>, kinds: set<string>)
    ensures forall k: nat :: k in Wanted(Entries(ts), kinds) <==> k < |ts| && (kinds == {} || ts[k].kind in kinds)
    ensures forall i, j :: 0 <= i < j < |Wanted(Entries(ts), kinds)| ==>
        Wanted(Entries(ts), kinds)[i] < Wanted(Entries(ts), kinds)[j]
  {
    WantedAll(Entries(ts), kinds);
    forall k | 0 <= k < |ts| ensures Entries(ts)[k].kind == ts[k].kind { EntryLocatesTensor(ts, k); }
    hide Wanted, Entries;
  }

  /** The entry can be loaded: it has bytes, and no shard it needs is cut short. */
  ghost predicate Loadable(disk: seq<seq<Byte>>, index: Index, ts: seq<Tensor>, k: nat)
    requires k < |ts|
  {
    0 < |ts[k].bytes| && Present(disk, index.shards, Entries(ts)[k].off, Entries(ts)[k].off + AlignUp(|ts[k].bytes|))
  }

  /** Yields the tensors of the given kinds, or of all if none is given, in the order they were written,
      until one cannot be loaded. `at` says which tensors they are. */
  method IterWeights(disk: seq<seq<Byte>>, index: Index, kinds: set<string>, chunk: Pos, direct: bool,
      ghost files: seq<seq<Byte>>, ghost ts: seq<Tensor>, ghost limit: nat)
      returns (out: seq<Loaded>, ok: bool, ghost at: seq<nat>)
    requires Encodes(Checkpoint(index, files), ts, limit) && MaybeTruncated(disk, files)
    requires forall k :: 0 <= k < |ts| ==> WellFormed(ts[k])
    ensures |at| == |out| && (forall n :: 0 <= n < |at| ==> at[n] < |ts|)
    ensures forall n, m :: 0 <= n < m < |at| ==> at[n] < at[m]
    ensures forall n :: 0 <= n < |out| ==>
      var t := ts[at[n]];
      && (kinds == {} || t.kind in kinds) && Loadable(disk, index, ts, at[n])
      && out[n] == Loaded(t.name, t.dtype, if t.shape == [] then [1] else t.shape, t.bytes)
    ensures ok <==> forall k :: 0 <= k < |ts| && (kinds == {} || ts[k].kind in kinds) ==> Loadable(disk, index, ts, k)
    ensures ok ==> forall k :: 0 <= k < |ts| && (kinds == {} || ts[k].kind in kinds) ==> k in at
    ensures !ok ==> exists stop: nat :: (
        && stop < |ts| && (kinds == {} || ts[stop].kind in kinds) && !Loadable(disk, index, ts, stop)
        && forall k: nat :: k in at <==> k < stop && (kinds == {} || ts[k].kind in kinds))
  {
    assert index.tensors == Entries(ts);
    var want := Wanted(index.tensors, kinds);
    WantedTensors(ts, kinds);
    hide *;
    forall n | 0 <= n < |want| ensures want[n] < |ts| { assert want[n] in want; }
    out, ok := LoadEach(disk, index, want, chunk, direct, files, ts, limit);
    at := want[..|out|];
    AllGood(disk, index, ts, want, out);
    if ok {
      assert at == want;
    } else {
      FrontOf(want, |out|);
    }
  }

  /** Loads the entries in turn until one fails. */
  method LoadEach(disk: seq<seq<Byte>>, index: Index, want: seq<nat>, chunk: Pos, direct: bool,
      ghost files: seq<seq<Byte>>, ghost ts: seq<Tensor>, ghost limit: nat) returns (out: seq<Loaded>, ok: bool)
    requires Encodes(Checkpoint(index, files), ts, limit) && MaybeTruncated(disk, files)
    requires (forall k :: 0 <= k < |ts| ==> WellFormed(ts[k])) && forall n :: 0 <= n < |want| ==> want[n] < |ts|
    ensures |out| <= |want| && (ok <==> |out| == |want|)
    ensures forall n :: 0 <= n < |out| ==> Good(disk, index, ts, want[n], out[n])
    ensures !ok ==> !Loadable(disk, index, ts, want[|out|])
  {
    out := [];
    hide *;
    while |out| < |want|
      invariant |out| <= |want|
      invariant forall n :: 0 <= n < |out| ==> Good(disk, index, ts, want[n], out[n])
      decreases |want| - |out|
    {
      var k := want[|out|];
      var r := LoadWeight(disk, index, k, chunk, direct, files, ts, limit);
      GoodIff(disk, index, ts, k, r);
      if r.Err? { return out, false; }
      out := out + [r.value];
    }
    ok := true;
  }

  /** Of an ascending list the first `n` are those below the one after them. */
  lemma {:induction false} FrontOf(want: seq<nat>, n: nat)
    requires n < |want| && forall i, j :: 0 <= i < j < |want| ==> want[i] < want[j]
    ensures forall k: nat :: k in want[..n] <==> k in want && k < want[n]
  {
  }

  /** The entry can be loaded, and this is what it loads as. */
  ghost predicate Good(disk: seq<seq<Byte>>, index: Index, ts: seq<Tensor>, k: nat, x: Loaded) {
    && k < |ts| && Loadable(disk, index, ts, k)
    && x == Loaded(ts[k].name, ts[k].dtype, if ts[k].shape == [] then [1] else ts[k].shape, ts[k].bytes)
  }

  lemma {:induction false} GoodIff(disk: seq<seq<Byte>>, index: Index, ts: seq<Tensor>, k: nat,
        r: Result<Loaded, ReadError>)
    requires k < |ts|
    requires r.Ok? <==>
        (0 < |ts[k].bytes| && Present(disk, index.shards, Entries(ts)[k].off,
        Entries(ts)[k].off + AlignUp(|ts[k].bytes|)))
    requires r.Ok? ==> r.value.name == ts[k].name && r.value.dtype == ts[k].dtype && r.value.bytes == ts[k].bytes
    requires r.Ok? ==> r.value.shape == if ts[k].shape == [] then [1] else ts[k].shape
    ensures r.Err? ==> !Loadable(disk, index, ts, k)
    ensures r.Ok? ==> Good(disk, index, ts, k, r.value)
  {
  }

  lemma {:induction false} AllGood(disk: seq<seq<Byte>>, index: Index, ts: seq<Tensor>, want: seq<nat>,
        out: seq<Loaded>)
    requires |out| <= |want| && forall n :: 0 <= n < |want| ==> want[n] < |ts|
    requires forall n :: 0 <= n < |out| ==> Good(disk, index, ts, want[n], out[n])
    ensures forall n :: 0 <= n < |out| ==>
      var t := ts[want[n]];
      Loadable(disk, index, ts, want[n]) &&
      out[n] == Loaded(t.name, t.dtype, if t.shape == [] then [1] else t.shape, t.bytes)
  {
    hide Loadable;
  }

  /** Every list of tensors, through every aligned shard limit, chunk size and read order, comes back
      with its names, types and bytes: all of the kinds asked for exactly when none of them is empty. */
  method RoundTrip(ts: seq<Tensor>, kinds: set<string>, shardLimit: Limit, chunk: Pos, direct: bool)
        returns (out: seq<Loaded>, ok: bool, ghost at: seq<nat>)
    requires forall k :: 0 <= k < |ts| ==> WellFormed(ts[k])
    ensures |at| == |out| && (forall n :: 0 <= n < |at| ==> at[n] < |ts|)
    ensures forall n, m :: 0 <= n < m < |at| ==> at[n] < at[m]
    ensures forall n :: 0 <= n < |out| ==>
      var t := ts[at[n]];
      && (kinds == {} || t.kind in kinds)
      && out[n] == Loaded(t.name, t.dtype, if t.shape == [] then [1] else t.shape, t.bytes)
    ensures ok <==> forall k :: 0 <= k < |ts| && (kinds == {} || ts[k].kind in kinds) ==> 0 < |ts[k].bytes|
    ensures ok ==> forall k :: 0 <= k < |ts| && (kinds == {} || ts[k].kind in kinds) ==> k in at
  {
    var ck := WriteAll(ts, shardLimit);
    assert Laid(ck.files, ck.index.shards, Region(ts), shardLimit);
    out, ok, at := IterWeights(ck.files, ck.index, kinds, chunk, direct, ck.files, ts, shardLimit);
    forall k | 0 <= k < |ts| ensures Loadable(ck.files, ck.index, ts, k) <==> 0 < |ts[k].bytes| {
      IntactIsPresent(ck.files, ck.index.shards, Region(ts), shardLimit, Entries(ts)[k].off,
          Entries(ts)[k].off + AlignUp(|ts[k].bytes|));
    }
  }
}
