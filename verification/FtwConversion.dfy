/** The two branches of a conversion, from dense weights and banks to a finished checkpoint, and the
    load that follows. */
module FtwConversion {
  import opened Basics
  import opened FtwFormat
  import opened FtwWriter
  import opened FtwReader
  import opened FtwLoad
  import opened FtwRoundTrip
  import opened FtwBanks
  import opened FtwBankLoad
  import opened FtwConvert
  import opened FtwBankTrip

  // ----- The streaming branch -----

  /** The layers completed so far. */
  function LayersOf(calls: seq<Call>): set<nat> {
    if calls == [] then {} else LayersOf(calls[..|calls| - 1]) + {calls[|calls| - 1].layer}
  }

  lemma {:induction false} LayersAre(calls: seq<Call>, l: nat)
    ensures l in LayersOf(calls) <==> exists c :: 0 <= c < |calls| && calls[c].layer == l
  {
    if calls != [] {
      LayersAre(calls[..|calls| - 1], l);
    }
  }

  predicate OncePerLayer(calls: seq<Call>) {
    forall c, d :: 0 <= c < d < |calls| ==> calls[c].layer != calls[d].layer
  }

  lemma {:induction false} NextCall(calls: seq<Call>, c: nat, pre: seq<Tensor>)
    requires c < |calls|
    ensures LayersOf(calls[..c + 1]) == LayersOf(calls[..c]) + {calls[c].layer}
    ensures pre + Streamed(calls[..c + 1]) == pre + Streamed(calls[..c]) + Renamed(calls[c].layer, calls[c].banks)
  {
    assert calls[..c + 1][..c] == calls[..c];
  }

  lemma {:induction false} NextOnce(calls: seq<Call>, c: nat)
    requires c < |calls| && OncePerLayer(calls[..c])
    ensures OncePerLayer(calls[..c + 1]) <==> calls[c].layer !in LayersOf(calls[..c])
  {
    LayersAre(calls[..c], calls[c].layer);
    hide LayersOf;
    var front, all, l := calls[..c], calls[..c + 1], calls[c].layer;
    assert all == front + [calls[c]];
    if d :| 0 <= d < c && front[d].layer == l {
      assert all[d].layer == all[c].layer;
    }
  }

  lemma {:induction false} OnceInPrefix(calls: seq<Call>, c: nat)
    ensures c <= |calls| && !OncePerLayer(calls[..c]) ==> !OncePerLayer(calls)
  {
  }

  lemma {:induction false} NoCalls(calls: seq<Call>, pre: seq<Tensor>)
    ensures LayersOf(calls[..0]) == {} && pre + Streamed(calls[..0]) == pre && OncePerLayer(calls[..0])
    ensures calls[..|calls|] == calls
  {
  }

  /** Every completed layer through the sink; stops at one that comes twice. */
  method StreamAll(sink: ConvertSink, calls: seq<Call>) returns (ok: bool)
    requires sink.writer.Valid() && sink.seen == {}
    modifies sink, sink.writer
    ensures sink.writer.Valid() && (ok <==> OncePerLayer(calls))
    ensures ok ==> sink.seen == LayersOf(calls) && sink.writer.written == old(sink.writer.written) + Streamed(calls)
  {
    ghost var before := sink.writer.written;
    NoCalls(calls, before);
    hide *;
    var c := 0;
    while c < |calls|
      invariant c <= |calls| && sink.writer.Valid() && sink.seen == LayersOf(calls[..c])
      invariant sink.writer.written == before + Streamed(calls[..c]) && OncePerLayer(calls[..c])
    {
      NextCall(calls, c, before);
      NextOnce(calls, c);
      var done := sink.LayerDone(calls[c].layer, calls[c].banks);
      if !done {
        OnceInPrefix(calls, c + 1);
        return false;
      }
      c := c + 1;
    }
    ok := true;
  }

  /** Dense weights, then every layer as it completes, then the alpha vectors. The layer count that
      is recorded is the number of layers the sink saw, which must not be none. */
  method ConvertStreamed(pre: seq<Tensor>, calls: seq<Call>, post: seq<Tensor>, shardLimit: Limit)
      returns (ok: bool, ck: Checkpoint, layers: nat)
    ensures ok <==> calls != [] && forall c, d :: 0 <= c < d < |calls| ==> calls[c].layer != calls[d].layer
    ensures ok ==> Encodes(ck, StreamedFile(pre, calls, post), shardLimit)
    ensures ok ==> layers == |LayersOf(calls)| == |calls|
    ensures !ok ==> ck == Checkpoint(Index(0, 0, [], []), [])
  {
    JoinsUp(pre, Streamed(calls), post);
    var w := new FTWWriter(shardLimit);
    AddAll(w, pre);
    var sink := new ConvertSink(w);
    ck := Checkpoint(Index(0, 0, [], []), []);
    ok := StreamAll(sink, calls);
    layers := |sink.seen|;
    NoLayers(calls);
    if ok { LayersCount(calls); }
    hide Streamed, LayersOf, Encodes;
    if !ok || layers == 0 { return false, ck, layers; }
    AddAll(w, post);
    var index := w.Finalize();
    ck := Checkpoint(index, w.files);
  }

  lemma {:induction false} JoinsUp(pre: seq<Tensor>, mid: seq<Tensor>, post: seq<Tensor>)
    ensures [] + pre == pre
  {
  }

  lemma {:induction false} NoLayers(calls: seq<Call>)
    ensures |LayersOf(calls)| == 0 <==> calls == []
  {
    if calls != [] { assert calls[|calls| - 1].layer in LayersOf(calls); }
  }

  lemma {:induction false} LayersCount(calls: seq<Call>)
    requires forall c, d :: 0 <= c < d < |calls| ==> calls[c].layer != calls[d].layer
    ensures |LayersOf(calls)| == |calls|
  {
    if calls != [] {
      var n := |calls| - 1;
      NextCall(calls, n, []);
      assert calls[..n + 1] == calls;
      LayersCount(calls[..n]);
      LayersAre(calls[..n], calls[n].layer);
    }
  }

  /** A stream of the layers of banks completes as many layers as the banks have. */
  lemma {:induction false} StreamCounts(calls: seq<Call>, banks: seq<Bank>, n: nat)
    requires ValidBanks(banks, n) && StreamOf(calls, banks, n)
    ensures OncePerLayer(calls) && calls != [] && |LayersOf(calls)| == n
  {
    forall l: nat ensures l in LayersOf(calls) <==> l in Below(n) {
      LayersAre(calls, l);
      if l < n {
        assert Streams(calls, banks[0]) && LayerStreamed(calls, banks[0], l);
      }
    }
    assert LayersOf(calls) == Below(n);
    NoLayers(calls);
  }

  function Below(n: nat): (r: set<nat>)
    ensures |r| == n && forall l: nat :: l in r <==> l < n
  {
    if n == 0 then {} else Below(n - 1) + {n - 1}
  }

  // ----- The materialising branch -----

  predicate SameCount(banks: seq<Bank>) {
    forall k :: 0 <= k < |banks| ==> 0 < |banks[k].layers| && |banks[k].layers| == |banks[0].layers|
  }

  /** Dense weights, then each bank's layers concatenated, then the alpha vectors. Banks of different
      layer counts are refused. */
  method ConvertFlat(pre: seq<Tensor>, banks: seq<Bank>, post: seq<Tensor>, shardLimit: Limit)
      returns (ok: bool, ck: Checkpoint, layers: Option<nat>)
    ensures ok <==> forall k :: 0 <= k < |banks| ==> 0 < |banks[k].layers| && |banks[k].layers| == |banks[0].layers|
    ensures ok ==> Encodes(ck, FlatFile(pre, banks, post), shardLimit)
    ensures !ok ==> ck == Checkpoint(Index(0, 0, [], []), [])
    ensures ok ==> layers == if banks == [] then None else Some(|banks[0].layers|)
  {
    JoinsUp(pre, Flats(banks), post);
    ck, layers := Checkpoint(Index(0, 0, [], []), []), None;
    var items: seq<Tensor> := [];
    var k := 0;
    while k < |banks|
      invariant k <= |banks| && SameCount(banks[..k])
      invariant layers == if k == 0 then None else Some(|banks[0].layers|)
      invariant |items| == k && forall i :: 0 <= i < k ==> items[i] == FlatTensor(banks[i])
    {
      var count := |banks[k].layers|;
      if count == 0 || (layers.Some? && layers.value != count) { return false, ck, layers; }
      layers := Some(|banks[0].layers|);
      items := items + [FlatTensor(banks[k])];
      k := k + 1;
    }
    assert items == Flats(banks) && banks[..|banks|] == banks;
    hide Encodes, Flats, SameCount;
    var w := new FTWWriter(shardLimit);
    AddAll(w, pre);
    AddAll(w, items);
    AddAll(w, post);
    var index := w.Finalize();
    ck, ok := Checkpoint(index, w.files), true;
  }

  // ----- Converted both ways and loaded -----

  /** A set of banks converted in either branch, for any shard limits, completion order, chunk sizes and
      read modes, loads in both cases or in neither, in both exactly when everything has bytes, and
      then gives the same: the banks' layers and the alphas that were converted. */
  method BothLayouts(
      pre: seq<Tensor>, calls: seq<Call>, banks: seq<Bank>, post: seq<Tensor>, n: nat,
      limitA: Limit, limitB: Limit, chunkA: Pos, chunkB: Pos, directA: bool, directB: bool)
      returns (a: Result<Option<Banks>, BankError>, b: Result<Option<Banks>, BankError>)
    requires Dense(pre) && AlphaTail(post) && ValidBanks(banks, n) && StreamOf(calls, banks, n)
    ensures a.Ok? <==> Sized(banks, post)
    ensures b.Ok? <==> Sized(banks, post)
    ensures a.Ok? ==> a == b && a.value.Some? && Delivers(a.value.value, banks, post)
  {
    StreamCounts(calls, banks, n);
    BanksCount(banks, n);
    a := TripStreamed(pre, calls, banks, post, n, limitA, chunkA, directA);
    b := TripFlat(pre, banks, post, n, limitB, chunkB, directB);
    hide *;
    if a.Ok? { DeliversOne(a.value.value, b.value.value, banks, post); }
  }

  lemma {:induction false} BanksCount(banks: seq<Bank>, n: nat)
    ensures ValidBanks(banks, n) ==> SameCount(banks) && banks != [] && |banks[0].layers| == n && 0 < n
  {
  }

  method TripStreamed(
      pre: seq<Tensor>, calls: seq<Call>, ghost banks: seq<Bank>, post: seq<Tensor>, n: nat,
      shardLimit: Limit, chunk: Pos, direct: bool)
      returns (r: Result<Option<Banks>, BankError>)
    requires Dense(pre) && AlphaTail(post) && ValidBanks(banks, n) && StreamOf(calls, banks, n)
    ensures r.Ok? <==> Sized(banks, post)
    ensures r.Ok? ==> r.value.Some? && Delivers(r.value.value, banks, post)
  {
    StreamCounts(calls, banks, n);
    BanksCount(banks, n);
    hide *;
    var ok, ck, layers := ConvertStreamed(pre, calls, post, shardLimit);
    r := LoadIntact(ck, layers, n, chunk, direct, StreamedFile(pre, calls, post), shardLimit);
    WhatEncodes(ck, StreamedFile(pre, calls, post), shardLimit);
    StreamedAllIff(ck.files, ck.index.shards, shardLimit, pre, calls, post, banks, n);
    if r.Ok? { StreamedDelivers(pre, calls, post, banks, n, r.value.value); }
  }

  method TripFlat(
      pre: seq<Tensor>, banks: seq<Bank>, post: seq<Tensor>, n: nat, shardLimit: Limit, chunk: Pos, direct: bool)
      returns (r: Result<Option<Banks>, BankError>)
    requires Dense(pre) && AlphaTail(post) && ValidBanks(banks, n)
    ensures r.Ok? <==> Sized(banks, post)
    ensures r.Ok? ==> r.value.Some? && Delivers(r.value.value, banks, post)
  {
    BanksCount(banks, n);
    hide *;
    var ok, ck, layers := ConvertFlat(pre, banks, post, shardLimit);
    r := LoadIntact(ck, layers.value, n, chunk, direct, FlatFile(pre, banks, post), shardLimit);
    WhatEncodes(ck, FlatFile(pre, banks, post), shardLimit);
    FlatAllIff(ck.files, ck.index.shards, shardLimit, pre, banks, post, n);
    if r.Ok? { FlatDelivers(pre, banks, post, n, r.value.value); }
  }

  lemma {:induction false} WhatEncodes(ck: Checkpoint, ts: seq<Tensor>, limit: nat)
    requires Encodes(ck, ts, limit)
    ensures Laid(ck.files, ck.index.shards, Region(ts), limit)
    ensures MaybeTruncated(ck.files, ck.files) && ck == Checkpoint(ck.index, ck.files)
  {
  }

  /** Loads from files nobody truncated. */
  method LoadIntact(ck: Checkpoint, recorded: nat, n: nat, chunk: Pos, direct: bool, ghost ts: seq<Tensor>,
        ghost limit: nat)
      returns (r: Result<Option<Banks>, BankError>)
    requires Encodes(ck, ts, limit) && recorded == n && 0 < n
    ensures r == Ok(None) <==> NoBanks(Entries(ts))
    ensures r.Ok? <==> NoBanks(Entries(ts)) || AllLoadable(ck.files, ck.index.shards, Entries(ts), Some(n), n)
    ensures r.Ok? && r.value.Some? ==> BanksOf(r.value.value, Entries(ts), Region(ts), n)
  {
    hide *;
    WhatEncodes(ck, ts, limit);
    r := LoadBanks(ck.files, ck.index, Some(recorded), n, chunk, direct, ck.files, ts, limit);
  }
}
