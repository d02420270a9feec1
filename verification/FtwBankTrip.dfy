/** Both conversions of a set of banks, and what the loader gives back: the same banks either way. */
module FtwBankTrip {
  import opened Basics
  import opened FtwFormat
  import opened FtwWriter
  import opened FtwReader
  import opened FtwLoad
  import opened FtwRoundTrip
  import opened LayerNames
  import opened FtwBanks
  import opened FtwBankLoad
  import opened FtwConvert

  /** A bank's layer as a tensor of its own. */
  function BankTensor(b: Bank, l: nat): Tensor
    requires l < |b.layers|
  {
    Tensor(b.name, BANK_KIND, b.dtype, b.elsize, [b.experts] + b.rowShape, b.layers[l])
  }

  /** What the loader should hand out for a bank. */
  function BankLayers(b: Bank): (r: seq<Layer>)
    ensures |r| == |b.layers|
  {
    seq(|b.layers|, l requires 0 <= l < |b.layers| => Layer(b.dtype, [b.experts] + b.rowShape, b.layers[l]))
  }

  ghost predicate IsLayerOf(calls: seq<Call>, c: int, i: int, b: Bank, l: nat)
    requires l < |b.layers|
  {
    && 0 <= c < |calls| && 0 <= i < |calls[c].banks|
    && calls[c].layer == l && calls[c].banks[i].(kind := BANK_KIND) == BankTensor(b, l)
  }

  ghost predicate LayerStreamed(calls: seq<Call>, b: Bank, l: nat)
    requires l < |b.layers|
  {
    exists c, i :: IsLayerOf(calls, c, i, b, l)
  }

  /** The bank's layers are among the completed ones. */
  ghost predicate Streams(calls: seq<Call>, b: Bank) {
    forall l :: 0 <= l < |b.layers| ==> LayerStreamed(calls, b, l)
  }

  /** Dense weights before the banks, alpha vectors after them. */
  ghost predicate Dense(pre: seq<Tensor>) {
    forall k :: 0 <= k < |pre| ==> pre[k].kind != BANK_KIND
  }

  ghost predicate AlphaTail(post: seq<Tensor>) {
    && (forall k :: 0 <= k < |post| ==> post[k].kind == BANK_KIND && IsAlpha(post[k].name))
    && (forall j, k :: 0 <= j < k < |post| ==> post[j].name != post[k].name)
  }

  /** Banks of the same number of layers, under different names. */
  ghost predicate ValidBanks(banks: seq<Bank>, n: nat) {
    && 0 < n && banks != []
    && (forall k :: 0 <= k < |banks| ==> ValidBank(banks[k]) && |banks[k].layers| == n)
    && (forall j, k :: 0 <= j < k < |banks| ==> banks[j].name != banks[k].name)
  }

  ghost predicate BankNamed(banks: seq<Bank>, name: string) {
    exists k :: 0 <= k < |banks| && banks[k].name == name
  }

  /** The calls complete exactly the layers of the banks, each once, in any order. */
  ghost predicate StreamOf(calls: seq<Call>, banks: seq<Bank>, n: nat) {
    && ValidStream(calls)
    && (forall c :: 0 <= c < |calls| ==> calls[c].layer < n)
    && (forall k :: 0 <= k < |banks| ==> Streams(calls, banks[k]))
    && (forall c, i :: 0 <= c < |calls| && 0 <= i < |calls[c].banks| ==> BankNamed(banks, calls[c].banks[i].name))
  }

  function StreamedFile(pre: seq<Tensor>, calls: seq<Call>, post: seq<Tensor>): seq<Tensor> {
    pre + Streamed(calls) + post
  }

  lemma {:induction false} JoinedAt(pre: seq<Tensor>, mid: seq<Tensor>, post: seq<Tensor>, k: nat)
    requires k < |pre + mid + post|
    ensures var t := (pre + mid + post)[k];
            if k < |pre| then t == pre[k] else if k < |pre| + |mid| then t == mid[k - |pre|]
                else t == post[k - |pre| - |mid|]
  {
  }

  // ----- What a streamed file holds -----

  /** Every row entry of a streamed file is a bank's layer. */
  lemma {:induction false} StreamedRow(pre: seq<Tensor>, calls: seq<Call>, post: seq<Tensor>, k: nat)
    returns (c: nat, i: nat)
    requires Dense(pre) && AlphaTail(post) && k < |StreamedFile(pre, calls, post)|
    requires IsRow(Entries(StreamedFile(pre, calls, post))[k])
    ensures c < |calls| && i < |calls[c].banks|
    ensures StreamedFile(pre, calls, post)[k] == LayerEntryOf(calls[c].banks[i], calls[c].layer)
  {
    hide Streamed, LayerEntryOf, Entries, Region;
    var ts := StreamedFile(pre, calls, post);
    EntryLocatesTensor(ts, k);
    JoinedAt(pre, Streamed(calls), post, k);
    var j := k - |pre|;
    c, i := StreamedFrom(calls, j);
    StreamedAt(calls, c, i);
  }

  /** A row entry of a streamed file is read back as the bank and layer it was written for. */
  lemma {:induction false} StreamedRowName(pre: seq<Tensor>, calls: seq<Call>, post: seq<Tensor>, banks: seq<Bank>,
        n: nat, k: nat)
    requires Dense(pre) && AlphaTail(post) && StreamOf(calls, banks, n) && k < |StreamedFile(pre, calls, post)|
    requires IsRow(Entries(StreamedFile(pre, calls, post))[k])
    ensures var m := MatchEntry(Entries(StreamedFile(pre, calls, post))[k].name);
            m.Some? && BankNamed(banks, m.value.0) && m.value.1 < n
  {
    var ts := StreamedFile(pre, calls, post);
    var c, i := StreamedRow(pre, calls, post, k);
    EntryLocatesTensor(ts, k);
    StreamedName(calls, c, i);
  }

  lemma {:induction false} StreamedLayerFound(pre: seq<Tensor>, calls: seq<Call>, post: seq<Tensor>, b: Bank, l: nat)
    requires ValidStream(calls) && Streams(calls, b) && AlphaTail(post) && l < |b.layers|
    ensures var ts := StreamedFile(pre, calls, post);
            var g := Group(Entries(ts));
            && b.name in g.perLayer && l in g.perLayer[b.name]
            && g.perLayer[b.name][l].nbytes == |b.layers[l]|
            && LayerOf(g.perLayer[b.name][l], Region(ts)) == BankLayers(b)[l]
  {
    hide Region, Entries, Group, Streamed, Carved, ValidStream, IsAlpha, MatchEntry, LayerEntryName;
    assert LayerStreamed(calls, b, l);
    var c, i :| IsLayerOf(calls, c, i, b, l);
    AnyOrderFound(pre, calls, post, c, i);
  }

  /** The names found in a streamed file, all per layer, are the banks', each with exactly the layers. */
  lemma {:induction false} StreamedNames(pre: seq<Tensor>, calls: seq<Call>, post: seq<Tensor>, banks: seq<Bank>,
        n: nat)
    requires Dense(pre) && AlphaTail(post) && ValidBanks(banks, n) && StreamOf(calls, banks, n)
    ensures var g := Group(Entries(StreamedFile(pre, calls, post)));
            && g.flat == map[]
            && (forall name :: name in g.perLayer <==> BankNamed(banks, name))
            && (forall name :: name in g.perLayer ==> ExactlyLayers(g.perLayer[name], n))
  {
    var ts := StreamedFile(pre, calls, post);
    var es := Entries(ts);
    var g := Group(es);
    hide Group, Entries, MatchEntry, StreamOf, ValidBanks, IsRow, Dense, AlphaTail, StreamedFile;
    if g.flat != map[] {
      var name :| name in g.flat;
      var k := FlatFrom(es, name);
      StreamedRowName(pre, calls, post, banks, n, k);
    }
    forall name | name in g.perLayer ensures BankNamed(banks, name) {
      var l := BaseHasLayer(es, name);
      var k := LayerFrom(es, name, l);
      StreamedRowName(pre, calls, post, banks, n, k);
    }
    forall name | BankNamed(banks, name)
        ensures name in g.perLayer && forall l :: 0 <= l < n ==> l in g.perLayer[name] {
      StreamedBank(pre, calls, post, banks, n, name);
    }
    forall name, l | name in g.perLayer && l in g.perLayer[name] ensures l < n {
      var k := LayerFrom(es, name, l);
      StreamedRowName(pre, calls, post, banks, n, k);
    }
  }

  lemma {:induction false} StreamedBank(pre: seq<Tensor>, calls: seq<Call>, post: seq<Tensor>, banks: seq<Bank>,
        n: nat, name: string)
    requires AlphaTail(post) && ValidBanks(banks, n) && StreamOf(calls, banks, n) && BankNamed(banks, name)
    ensures var g := Group(Entries(StreamedFile(pre, calls, post)));
            name in g.perLayer && forall l :: 0 <= l < n ==> l in g.perLayer[name]
  {
    var j :| 0 <= j < |banks| && banks[j].name == name;
    hide Group, Entries, AlphaTail, ValidStream;
    StreamedLayerFound(pre, calls, post, banks[j], 0);
    forall l: nat | l < n ensures l in Group(Entries(StreamedFile(pre, calls, post))).perLayer[name] {
      StreamedLayerFound(pre, calls, post, banks[j], l);
    }
  }

  /** What the loader gives for a streamed bank is the bank. */
  lemma {:induction false} StreamedSourceIsBank(
      pre: seq<Tensor>, calls: seq<Call>, post: seq<Tensor>, b: Bank, layers: seq<Layer>)
    requires ValidStream(calls) && Streams(calls, b) && AlphaTail(post) && 0 < |b.layers|
    requires var ts := StreamedFile(pre, calls, post); Source(layers, Group(Entries(ts)), b.name, Region(ts),
        |b.layers|)
    ensures layers == BankLayers(b)
  {
    hide Region, Entries, Group, Carved, ValidStream, AlphaTail, FlatSource;
    forall l: nat | l < |b.layers| ensures layers[l] == BankLayers(b)[l] {
      StreamedLayerFound(pre, calls, post, b, l);
    }
  }

  /** In intact files a streamed bank can be loaded exactly when its layers have bytes. */
  lemma {:induction false} StreamedLoadableIff(
      files: seq<seq<Byte>>, shards: seq<Shard>, limit: nat,
      pre: seq<Tensor>, calls: seq<Call>, post: seq<Tensor>, banks: seq<Bank>, n: nat, j: nat)
    requires Dense(pre) && AlphaTail(post) && ValidBanks(banks, n) && StreamOf(calls, banks, n) && j < |banks|
    requires Laid(files, shards, Region(StreamedFile(pre, calls, post)), limit)
    ensures var g := Group(Entries(StreamedFile(pre, calls, post)));
            && banks[j].name in g.perLayer
            && (BankLoadable(files, shards, g, banks[j].name, n) <==> 0 < LayerSize(banks[j]))
  {
    var ts, b := StreamedFile(pre, calls, post), banks[j];
    var g := Group(Entries(ts));
    assert ValidBank(b) && |b.layers| == n && Streams(calls, b) && ValidStream(calls);
    assert BankNamed(banks, b.name);
    StreamedNames(pre, calls, post, banks, n);
    hide Region, Entries, Group, Streamed, ValidStream, StreamOf, ValidBanks, AlphaTail, Dense, Streams, Laid, Present;
    forall l | l in g.perLayer[b.name]
        ensures EntryPresent(files, shards, g.perLayer[b.name][l]) <==> 0 < LayerSize(b) {
      StreamedLayerFound(pre, calls, post, b, l);
      var e := g.perLayer[b.name][l];
      IntactIsPresent(files, shards, Region(ts), limit, e.off, e.off + AlignUp(e.nbytes));
    }
    assert 0 in g.perLayer[b.name];
  }

  // ----- What a flat file holds -----

  /** The layers of each bank, concatenated. */
  function Flats(banks: seq<Bank>): (r: seq<Tensor>)
    ensures |r| == |banks| && forall k :: 0 <= k < |r| ==> r[k] == FlatTensor(banks[k])
  {
    seq(|banks|, k requires 0 <= k < |banks| => FlatTensor(banks[k]))
  }

  function FlatFile(pre: seq<Tensor>, banks: seq<Bank>, post: seq<Tensor>): seq<Tensor> {
    pre + Flats(banks) + post
  }

  /** The row entries of a flat file are the banks', in order. */
  lemma {:induction false} FlatRow(pre: seq<Tensor>, banks: seq<Bank>, post: seq<Tensor>, n: nat, k: nat)
    requires Dense(pre) && AlphaTail(post) && ValidBanks(banks, n) && k < |FlatFile(pre, banks, post)|
    ensures var e := Entries(FlatFile(pre, banks, post))[k];
            if |pre| <= k < |pre| + |banks|
            then e == EntryAt(FlatTensor(banks[k - |pre|]), e.off) && IsRow(e) && MatchEntry(e.name) == None
            else !IsRow(e)
  {
    var ts := FlatFile(pre, banks, post);
    hide Entries, Region, MatchEntry, Concat, IsAlpha;
    EntryLocatesTensor(ts, k);
    JoinedAt(pre, Flats(banks), post, k);
    if |pre| <= k < |pre| + |banks| {
      assert ValidBank(banks[k - |pre|]);
    }
  }

  lemma {:induction false} FlatFound(pre: seq<Tensor>, banks: seq<Bank>, post: seq<Tensor>, n: nat, j: nat)
    requires Dense(pre) && AlphaTail(post) && ValidBanks(banks, n) && j < |banks|
    ensures var ts := FlatFile(pre, banks, post);
            var g := Group(Entries(ts));
            && |pre| + j < |ts| && ts[|pre| + j] == FlatTensor(banks[j])
            && banks[j].name in g.flat && g.flat[banks[j].name] == Entries(ts)[|pre| + j]
  {
    var es := Entries(FlatFile(pre, banks, post));
    FlatAt(pre, banks, post, n, j);
    hide *;
    forall k | |pre| + j < k < |es| ensures es[k].name != banks[j].name {
      LaterFlatDiffers(pre, banks, post, n, j, k);
    }
    GroupFindsFlat(es, |pre| + j);
  }

  lemma {:induction false} FlatAt(pre: seq<Tensor>, banks: seq<Bank>, post: seq<Tensor>, n: nat, j: nat)
    requires Dense(pre) && AlphaTail(post) && ValidBanks(banks, n) && j < |banks|
    ensures var ts := FlatFile(pre, banks, post);
            && |pre| + j < |ts| && ts[|pre| + j] == FlatTensor(banks[j])
            && var e := Entries(ts)[|pre| + j];
            IsRow(e) && MatchEntry(e.name) == None && e.name == banks[j].name
  {
    hide Entries, Region, MatchEntry, Concat, IsAlpha, Dense, AlphaTail, ValidBanks;
    JoinedAt(pre, Flats(banks), post, |pre| + j);
    EntryLocatesTensor(FlatFile(pre, banks, post), |pre| + j);
    NotAlphaName(banks, n, j);
  }

  lemma {:induction false} LaterFlatDiffers(pre: seq<Tensor>, banks: seq<Bank>, post: seq<Tensor>, n: nat, j: nat,
        k: nat)
    requires AlphaTail(post) && ValidBanks(banks, n) && j < |banks| && |pre| + j < k < |FlatFile(pre, banks, post)|
    ensures Entries(FlatFile(pre, banks, post))[k].name != banks[j].name
  {
    hide Entries, Region, MatchEntry, Concat, IsAlpha;
    JoinedAt(pre, Flats(banks), post, k);
    EntryLocatesTensor(FlatFile(pre, banks, post), k);
    NotAlphaName(banks, n, j);
  }

  lemma {:induction false} NotAlphaName(banks: seq<Bank>, n: nat, j: nat)
    requires ValidBanks(banks, n) && j < |banks|
    ensures !IsAlpha(banks[j].name) && MatchEntry(banks[j].name) == None
  {
    assert ValidBank(banks[j]);
  }

  lemma {:induction false} FlatNames(pre: seq<Tensor>, banks: seq<Bank>, post: seq<Tensor>, n: nat)
    requires Dense(pre) && AlphaTail(post) && ValidBanks(banks, n)
    ensures var g := Group(Entries(FlatFile(pre, banks, post)));
            && g.perLayer == map[]
            && (forall name :: name in g.flat <==> BankNamed(banks, name))
  {
    var es := Entries(FlatFile(pre, banks, post));
    var g := Group(es);
    hide Group, Entries, MatchEntry, ValidBanks, IsRow, Dense, AlphaTail, FlatFile;
    if g.perLayer != map[] {
      var name :| name in g.perLayer;
      var l := BaseHasLayer(es, name);
      var k := LayerFrom(es, name, l);
      FlatRow(pre, banks, post, n, k);
    }
    forall name | name in g.flat ensures BankNamed(banks, name) {
      var k := FlatFrom(es, name);
      FlatRow(pre, banks, post, n, k);
    }
    forall name | BankNamed(banks, name) ensures name in g.flat {
      var j :| 0 <= j < |banks| && banks[j].name == name;
      FlatFound(pre, banks, post, n, j);
    }
  }

  /** What the loader gives for a bank written flat is the bank. */
  lemma {:induction false} FlatSourceIsBank(
      pre: seq<Tensor>, banks: seq<Bank>, post: seq<Tensor>, n: nat, j: nat, layers: seq<Layer>)
    requires Dense(pre) && AlphaTail(post) && ValidBanks(banks, n) && j < |banks|
    requires var ts := FlatFile(pre, banks, post); Source(layers, Group(Entries(ts)), banks[j].name, Region(ts), n)
    ensures layers == BankLayers(banks[j])
  {
    var ts, b := FlatFile(pre, banks, post), banks[j];
    FlatNames(pre, banks, post, n);
    FlatFound(pre, banks, post, n, j);
    assert ValidBank(b) && |b.layers| == n;
    hide Region, Entries, Group, FlatSource, ValidBank, ValidBanks, Dense, AlphaTail, FlatFile, FlatTensor, Flats,
        BankLayers;
    FlatLayersAre(ts, |pre| + j, b, layers);
  }

  lemma {:induction false} FlatLayersAre(ts: seq<Tensor>, k: nat, b: Bank, layers: seq<Layer>)
    requires ValidBank(b) && k < |ts| && ts[k] == FlatTensor(b) && |layers| == |b.layers|
    requires FlatSource(layers, Entries(ts)[k], Region(ts), |b.layers|)
    ensures layers == BankLayers(b)
  {
    var e := Entries(ts)[k];
    EntryLocatesTensor(ts, k);
    FlatSize(b, e);
    FlatLoadsBank(ts, k, b, Bytes(layers));
    MultipleDivides(|b.layers|, b.experts);
    assert e.shape[1..] == b.rowShape;
    hide Region, Entries, Carved, MatchEntry, Concat, LayerAt, FlatLayers, FlatShapeOk, ValidBank;
    forall l | 0 <= l < |layers| ensures layers[l] == BankLayers(b)[l] {
      assert Bytes(layers)[l] == b.layers[l];
    }
  }

  lemma {:induction false} WindowsIff(files: seq<seq<Byte>>, shards: seq<Shard>, region: seq<Byte>, limit: nat,
        off: nat, size: nat, n: nat)
    requires Laid(files, shards, region, limit) && Aligned(off) && 0 < n
    ensures WindowsPresent(files, shards, off, size, n) <==> 0 < size
  {
    hide Laid, Present;
    forall l: nat | l < n
        ensures Present(files, shards, AlignDown(LayerAt(off, size, l)), AlignUp(LayerAt(off, size, l) + size)) {
      IntactIsPresent(files, shards, region, limit, AlignDown(LayerAt(off, size, l)),
          AlignUp(LayerAt(off, size, l) + size));
    }
    assert LayerAt(off, size, 0) == off;
    if size == 0 {
      assert !WindowPresent(files, shards, LayerAt(off, size, 0), size);
    } else {
      forall l: nat | l < n ensures WindowPresent(files, shards, LayerAt(off, size, l), size) {
        WindowOpens(LayerAt(off, size, l), size);
      }
    }
  }

  lemma {:induction false} WindowOpens(off: nat, size: Pos)
    ensures AlignDown(off) < AlignUp(off + size)
  {
  }

  /** In intact files a flat bank can be loaded exactly when its layers have bytes. */
  lemma {:induction false} FlatLoadableIff(
      files: seq<seq<Byte>>, shards: seq<Shard>, limit: nat,
      pre: seq<Tensor>, banks: seq<Bank>, post: seq<Tensor>, n: nat, j: nat)
    requires Dense(pre) && AlphaTail(post) && ValidBanks(banks, n) && j < |banks|
    requires Laid(files, shards, Region(FlatFile(pre, banks, post)), limit)
    ensures var g := Group(Entries(FlatFile(pre, banks, post)));
            && banks[j].name in g.flat
            && (BankLoadable(files, shards, g, banks[j].name, n) <==> 0 < LayerSize(banks[j]))
  {
    var ts, b := FlatFile(pre, banks, post), banks[j];
    FlatNames(pre, banks, post, n);
    FlatFound(pre, banks, post, n, j);
    var e := Entries(ts)[|pre| + j];
    EntryLocatesTensor(ts, |pre| + j);
    assert ValidBank(b) && |b.layers| == n;
    FlatSize(b, e);
    WindowsIff(files, shards, Region(ts), limit, e.off, LayerSize(b), n);
    hide Region, Entries, Group, MatchEntry, Concat, WindowsPresent, ValidBanks, Dense, AlphaTail, FlatFile, Laid,
        LayerSize;
  }

  // ----- Alpha vectors -----

  /** A file whose alpha entries are exactly its tail. */
  ghost predicate NoAlphaIn(front: seq<Tensor>) {
    forall k :: 0 <= k < |front| ==> front[k].kind != BANK_KIND || !IsAlpha(front[k].name)
  }

  function AlphaLayer(t: Tensor): Layer { Layer(t.dtype, t.shape, t.bytes) }

  ghost predicate AlphasAre(alphas: map<string, Layer>, post: seq<Tensor>) {
    && (forall name :: name in alphas ==> exists k :: 0 <= k < |post| && post[k].name == name)
    && (forall k :: 0 <= k < |post| ==> post[k].name in alphas && alphas[post[k].name] == AlphaLayer(post[k]))
  }

  lemma {:induction false} AlphaRow(front: seq<Tensor>, post: seq<Tensor>, k: nat)
    requires NoAlphaIn(front) && AlphaTail(post) && k < |front + post|
    ensures var ts := front + post;
            var e := Entries(ts)[k];
            && (IsAlphaEntry(e) <==> |front| <= k)
            && (|front| <= k ==>
                e.name == post[k - |front|].name && LayerOf(e, Region(ts)) == AlphaLayer(post[k - |front|])
                                 && e.nbytes == |post[k - |front|].bytes|)
  {
    hide Entries, Region, IsAlpha;
    EntryLocatesTensor(front + post, k);
  }

  lemma {:induction false} AlphaTailFound(front: seq<Tensor>, post: seq<Tensor>, k: nat)
    requires NoAlphaIn(front) && AlphaTail(post) && k < |post|
    ensures var ts := front + post;
            && post[k].name in Alphas(Entries(ts))
            && Alphas(Entries(ts))[post[k].name] == Entries(ts)[|front| + k]
  {
    var es := Entries(front + post);
    hide Entries, Region, IsAlphaEntry, NoAlphaIn, Alphas;
    AlphaRow(front, post, |front| + k);
    forall j | |front| + k < j < |es| ensures es[j].name != es[|front| + k].name {
      AlphaRow(front, post, j);
    }
    AlphaFound(es, |front| + k);
  }

  /** What the loader gives for the alphas is the tail. */
  lemma {:induction false} AlphasAreTail(front: seq<Tensor>, post: seq<Tensor>, alphas: map<string, Layer>)
    requires NoAlphaIn(front) && AlphaTail(post)
    requires AlphasOf(alphas, Entries(front + post), Region(front + post))
    ensures AlphasAre(alphas, post)
  {
    var es := Entries(front + post);
    hide Entries, Region, IsAlphaEntry, NoAlphaIn, Alphas, AlphaTail, AlphaLayer, LayerOf;
    forall k | 0 <= k < |post| ensures post[k].name in alphas && alphas[post[k].name] == AlphaLayer(post[k]) {
      AlphaTailFound(front, post, k);
      AlphaRow(front, post, |front| + k);
    }
    forall name | name in alphas ensures exists k :: 0 <= k < |post| && post[k].name == name {
      var k := AlphaFrom(es, name);
      AlphaRow(front, post, k);
      assert post[k - |front|].name == name;
    }
  }

  /** Every tensor has bytes. */
  ghost predicate Filled(ts: seq<Tensor>) {
    forall k :: 0 <= k < |ts| ==> 0 < |ts[k].bytes|
  }

  lemma {:induction false} AlphasPresentIff(
      files: seq<seq<Byte>>, shards: seq<Shard>, limit: nat, front: seq<Tensor>, post: seq<Tensor>)
    requires NoAlphaIn(front) && AlphaTail(post) && Laid(files, shards, Region(front + post), limit)
    ensures AlphasPresent(files, shards, Entries(front + post)) <==> Filled(post)
  {
    var es := Entries(front + post);
    hide Entries, Region, IsAlphaEntry, NoAlphaIn, AlphaTail, Laid, Present, LayerOf, AlphaLayer;
    forall k | 0 <= k < |es|
        ensures IsAlphaEntry(es[k]) && EntryPresent(files, shards, es[k]) <==> |front| <= k && 0 < es[k].nbytes {
      AlphaRow(front, post, k);
      IntactIsPresent(files, shards, Region(front + post), limit, es[k].off, es[k].off + AlignUp(es[k].nbytes));
    }
    forall k | 0 <= k < |post| ensures IsAlphaEntry(es[|front| + k]) && es[|front| + k].nbytes == |post[k].bytes| {
      AlphaRow(front, post, |front| + k);
    }
    forall k | 0 <= k < |es| && IsAlphaEntry(es[k]) ensures |front| <= k && es[k].nbytes == |post[k - |front|].bytes| {
      AlphaRow(front, post, k);
    }
  }

  // ----- Whole files -----

  /** What loading should give: every bank's layers and every alpha, and nothing else. */
  ghost predicate Delivers(v: Banks, banks: seq<Bank>, post: seq<Tensor>) {
    && (forall name :: name in v.rows <==> BankNamed(banks, name))
    && (forall k :: 0 <= k < |banks| ==> banks[k].name in v.rows && v.rows[banks[k].name] == BankLayers(banks[k]))
    && AlphasAre(v.alphas, post)
  }

  /** There is one thing to give. */
  lemma {:induction false} DeliversOne(v: Banks, w: Banks, banks: seq<Bank>, post: seq<Tensor>)
    requires Delivers(v, banks, post) && Delivers(w, banks, post)
    ensures v == w
  {
    hide BankLayers, AlphaLayer;
    assert v.rows.Keys == w.rows.Keys;
    forall name | name in v.rows ensures v.rows[name] == w.rows[name] {
      var k :| 0 <= k < |banks| && banks[k].name == name;
    }
    assert v.rows == w.rows;
    SameAlphas(v.alphas, w.alphas, post);
  }

  lemma {:induction false} SameAlphas(v: map<string, Layer>, w: map<string, Layer>, post: seq<Tensor>)
    requires AlphasAre(v, post) && AlphasAre(w, post)
    ensures v == w
  {
    hide AlphaLayer;
    forall name | name in v || name in w ensures name in v && name in w && v[name] == w[name] {
      var k :| 0 <= k < |post| && post[k].name == name;
    }
    assert v.Keys == w.Keys;
  }

  /** Everything in the file has bytes. */
  ghost predicate Sized(banks: seq<Bank>, post: seq<Tensor>) {
    (forall k :: 0 <= k < |banks| ==> 0 < LayerSize(banks[k])) && Filled(post)
  }

  lemma {:induction false} StreamedHasNoAlpha(pre: seq<Tensor>, calls: seq<Call>)
    ensures Dense(pre) ==> NoAlphaIn(pre + Streamed(calls))
  {
    if Dense(pre) {
      hide LayerEntryOf, LayerEntryName, IsAlpha, Streamed;
      var front := pre + Streamed(calls);
      forall k | |pre| <= k < |front| ensures !IsAlpha(front[k].name) {
        var c, i := StreamedFrom(calls, k - |pre|);
        StreamedAt(calls, c, i);
        AlphaLayerName(calls[c].banks[i], calls[c].layer);
      }
    }
  }

  lemma {:induction false} AlphaLayerName(bank: Tensor, layer: nat)
    ensures !IsAlpha(LayerEntryOf(bank, layer).name)
  {
    AlphaHasNoHash(bank.name, layer);
  }

  /** In intact files everything streamed can be loaded exactly when everything has bytes. */
  lemma {:induction false} StreamedAllIff(
      files: seq<seq<Byte>>, shards: seq<Shard>, limit: nat,
      pre: seq<Tensor>, calls: seq<Call>, post: seq<Tensor>, banks: seq<Bank>, n: nat)
    requires Dense(pre) && AlphaTail(post) && ValidBanks(banks, n) && StreamOf(calls, banks, n)
    requires Laid(files, shards, Region(StreamedFile(pre, calls, post)), limit)
    ensures var es := Entries(StreamedFile(pre, calls, post));
            !NoBanks(es) && (AllLoadable(files, shards, es, Some(n), n) <==> Sized(banks, post))
  {
    var es := Entries(StreamedFile(pre, calls, post));
    var g := Group(es);
    StreamedNames(pre, calls, post, banks, n);
    StreamedHasNoAlpha(pre, calls);
    AlphasPresentIff(files, shards, limit, pre + Streamed(calls), post);
    hide Group, Entries, Region, Streamed, Laid, BankLoadable, AlphasPresent, Filled, Dense, AlphaTail, StreamOf,
        ValidBank, ExactlyLayers, LayerSize;
    forall j | 0 <= j < |banks|
      ensures banks[j].name in g.perLayer && (BankLoadable(files, shards, g, banks[j].name, n) <==>
          0 < LayerSize(banks[j]))
    {
      StreamedLoadableIff(files, shards, limit, pre, calls, post, banks, n, j);
    }
    assert BankNamed(banks, banks[0].name);
    var l := BaseHasLayer(es, banks[0].name);
    var k := LayerFrom(es, banks[0].name, l);
    hide ValidBanks;
    NamedLoadable(files, shards, g, banks, n);
  }

  lemma {:induction false} NamedLoadable(files: seq<seq<Byte>>, shards: seq<Shard>, g: Groups, banks: seq<Bank>, n: nat)
    requires 0 < n && forall name :: name in Names(g) <==> BankNamed(banks, name)
    requires forall j :: 0 <= j < |banks| ==> banks[j].name in Names(g)
    requires forall j :: 0 <= j < |banks| ==>
        (BankLoadable(files, shards, g, banks[j].name, n) <==> 0 < LayerSize(banks[j]))
    ensures (forall name :: name in Names(g) ==> BankLoadable(files, shards, g, name, n)) <==>
            forall j :: 0 <= j < |banks| ==> 0 < LayerSize(banks[j])
  {
    hide BankLoadable, LayerSize;
  }

  /** What is loaded of a streamed file is what was converted. */
  lemma {:induction false} StreamedDelivers(
      pre: seq<Tensor>, calls: seq<Call>, post: seq<Tensor>, banks: seq<Bank>, n: nat, v: Banks)
    requires Dense(pre) && AlphaTail(post) && ValidBanks(banks, n) && StreamOf(calls, banks, n)
    requires var ts := StreamedFile(pre, calls, post); BanksOf(v, Entries(ts), Region(ts), n)
    ensures Delivers(v, banks, post)
  {
    var ts := StreamedFile(pre, calls, post);
    StreamedNames(pre, calls, post, banks, n);
    StreamedHasNoAlpha(pre, calls);
    AlphasAreTail(pre + Streamed(calls), post, v.alphas);
    hide Group, Entries, Region, Streamed, AlphasOf, AlphasAre, AlphaTail, Source, ValidBank, ExactlyLayers,
        BankLayers, ValidStream;
    forall j | 0 <= j < |banks| ensures banks[j].name in v.rows && v.rows[banks[j].name] == BankLayers(banks[j]) {
      assert BankNamed(banks, banks[j].name);
      StreamedSourceIsBank(pre, calls, post, banks[j], v.rows[banks[j].name]);
    }
  }

  lemma {:induction false} FlatsHaveNoAlpha(pre: seq<Tensor>, banks: seq<Bank>, n: nat)
    requires Dense(pre) && ValidBanks(banks, n)
    ensures NoAlphaIn(pre + Flats(banks))
  {
    hide IsAlpha, MatchEntry;
    var front := pre + Flats(banks);
    forall k | |pre| <= k < |front| ensures !IsAlpha(front[k].name) {
      NotAlphaName(banks, n, k - |pre|);
    }
  }

  /** The same for a flat file. */
  lemma {:induction false} FlatAllIff(
      files: seq<seq<Byte>>, shards: seq<Shard>, limit: nat,
      pre: seq<Tensor>, banks: seq<Bank>, post: seq<Tensor>, n: nat)
    requires Dense(pre) && AlphaTail(post) && ValidBanks(banks, n)
    requires Laid(files, shards, Region(FlatFile(pre, banks, post)), limit)
    ensures var es := Entries(FlatFile(pre, banks, post));
            !NoBanks(es) && (AllLoadable(files, shards, es, Some(n), n) <==> Sized(banks, post))
  {
    var es := Entries(FlatFile(pre, banks, post));
    var g := Group(es);
    FlatNames(pre, banks, post, n);
    FlatsHaveNoAlpha(pre, banks, n);
    AlphasPresentIff(files, shards, limit, pre + Flats(banks), post);
    hide Group, Entries, Region, Laid, BankLoadable, AlphasPresent, Filled, Dense, AlphaTail, ValidBank, LayerSize;
    forall j | 0 <= j < |banks|
      ensures banks[j].name in g.flat && (BankLoadable(files, shards, g, banks[j].name, n) <==> 0 < LayerSize(banks[j]))
    {
      FlatLoadableIff(files, shards, limit, pre, banks, post, n, j);
    }
    assert banks[0].name in g.flat;
    var k := FlatFrom(es, banks[0].name);
    hide ValidBanks;
    NamedLoadable(files, shards, g, banks, n);
  }

  lemma {:induction false} FlatAlphas(pre: seq<Tensor>, banks: seq<Bank>, post: seq<Tensor>, n: nat,
        alphas: map<string, Layer>)
    requires Dense(pre) && AlphaTail(post) && ValidBanks(banks, n)
    requires var ts := FlatFile(pre, banks, post); AlphasOf(alphas, Entries(ts), Region(ts))
    ensures AlphasAre(alphas, post)
  {
    hide Dense, AlphaTail, ValidBanks, AlphasOf, AlphasAre, Entries, Region, Flats, NoAlphaIn;
    FlatsHaveNoAlpha(pre, banks, n);
    AlphasAreTail(pre + Flats(banks), post, alphas);
  }

  lemma {:induction false} FlatDelivers(pre: seq<Tensor>, banks: seq<Bank>, post: seq<Tensor>, n: nat, v: Banks)
    requires Dense(pre) && AlphaTail(post) && ValidBanks(banks, n)
    requires var ts := FlatFile(pre, banks, post); BanksOf(v, Entries(ts), Region(ts), n)
    ensures Delivers(v, banks, post)
  {
    hide Group, Entries, Region, AlphasOf, AlphasAre, AlphaTail, Source, ValidBanks, Dense, FlatFile, BankLayers;
    FlatNames(pre, banks, post, n);
    FlatAlphas(pre, banks, post, n, v.alphas);
    forall j | 0 <= j < |banks| ensures banks[j].name in v.rows && v.rows[banks[j].name] == BankLayers(banks[j]) {
      assert BankNamed(banks, banks[j].name);
      FlatSourceIsBank(pre, banks, post, n, j, v.rows[banks[j].name]);
    }
  }

  /** Both layouts load identically: what the loader gives for the two files of a set of banks is the
      same, bank by bank and alpha by alpha, with types and shapes. */
  lemma {:induction false} LayoutsLoadAlike(
      pre: seq<Tensor>, calls: seq<Call>, post: seq<Tensor>, banks: seq<Bank>, n: nat, streamed: Banks, flat: Banks)
    requires Dense(pre) && AlphaTail(post) && ValidBanks(banks, n) && StreamOf(calls, banks, n)
    requires var ts := StreamedFile(pre, calls, post); BanksOf(streamed, Entries(ts), Region(ts), n)
    requires var ts := FlatFile(pre, banks, post); BanksOf(flat, Entries(ts), Region(ts), n)
    ensures streamed == flat && Delivers(flat, banks, post)
  {
    hide *;
    StreamedDelivers(pre, calls, post, banks, n, streamed);
    FlatDelivers(pre, banks, post, n, flat);
    DeliversOne(streamed, flat, banks, post);
  }
}
