/** The loader over all bank entries of a checkpoint: row banks in either layout, and alpha vectors. */
module FtwBankLoad {
  import opened Basics
  import opened FtwFormat
  import opened FtwReader
  import opened FtwLoad
  import opened LayerNames
  import opened FtwBanks

  /** A tensor as the loader hands it out. */
  datatype Layer = Layer(dtype: string, shape: seq<nat>, bytes: seq<Byte>)

  function Bytes(layers: seq<Layer>): (r: seq<seq<Byte>>)
    ensures |r| == |layers|
  {
    seq(|layers|, l requires 0 <= l < |layers| => layers[l].bytes)
  }

  /** The shape of one layer of a flat bank: its share of the rows. */
  function FlatShape(e: Entry, numLayers: Pos): seq<nat>
    requires e.shape != []
  {
    [e.shape[0] / numLayers] + e.shape[1..]
  }

  // ----- One bank -----

  function LayerOf(e: Entry, region: seq<Byte>): Layer {
    Layer(e.dtype, e.shape, Carved(region, e.off, e.nbytes))
  }

  ghost predicate PerLayerSource(layers: seq<Layer>, byLayer: map<nat, Entry>, region: seq<Byte>) {
    forall l :: 0 <= l < |layers| ==> l in byLayer && layers[l] == LayerOf(byLayer[l], region)
  }

  ghost predicate FlatSource(layers: seq<Layer>, e: Entry, region: seq<Byte>, numLayers: Pos)
  {
    && FlatShapeOk(e, numLayers)
    && FlatLayers(Bytes(layers), region, e.off, LayerBytes(e, numLayers))
    && forall l :: 0 <= l < |layers| ==> layers[l].dtype == e.dtype && layers[l].shape == FlatShape(e, numLayers)
  }

  /** What the loader gives for one bank name. */
  ghost predicate Source(layers: seq<Layer>, g: Groups, name: string, region: seq<Byte>, numLayers: Pos)
  {
    && |layers| == numLayers
    && (name in g.perLayer ==> PerLayerSource(layers, g.perLayer[name], region))
    && (name !in g.perLayer && name in g.flat ==> FlatSource(layers, g.flat[name], region, numLayers))
  }

  /** The bank's layers fit its layout, and no shard they need is cut short. */
  ghost predicate BankLoadable(disk: seq<seq<Byte>>, shards: seq<Shard>, g: Groups, name: string, numLayers: Pos)
    requires (name in g.flat || name in g.perLayer)
  {
    if name in g.perLayer then
      && ExactlyLayers(g.perLayer[name], numLayers)
      && forall l :: l in g.perLayer[name] ==> EntryPresent(disk, shards, g.perLayer[name][l])
    else
      && FlatShapeOk(g.flat[name], numLayers)
      && WindowsPresent(disk, shards, g.flat[name].off, LayerBytes(g.flat[name], numLayers), numLayers)
  }

  ghost predicate EntryIn(e: Entry, region: seq<Byte>) {
    Aligned(e.off) && e.off + e.nbytes <= |region|
  }

  ghost predicate GroupsIn(g: Groups, region: seq<Byte>) {
    && (forall name :: name in g.flat ==> EntryIn(g.flat[name], region))
    && (forall base, l :: base in g.perLayer && l in g.perLayer[base] ==> EntryIn(g.perLayer[base][l], region))
  }

  lemma {:induction false} GroupKeepsEntries(es: seq<Entry>, region: seq<Byte>)
    requires forall k :: 0 <= k < |es| ==> EntryIn(es[k], region)
    ensures GroupsIn(Group(es), region)
  {
    if es != [] {
      GroupKeepsEntries(es[..|es| - 1], region);
    }
  }

  lemma {:induction false} FlatSourceFrom(data: seq<seq<Byte>>, e: Entry, region: seq<Byte>, numLayers: Pos,
        layers: seq<Layer>)
    requires FlatShapeOk(e, numLayers) && |data| == |layers|
    requires FlatLayers(data, region, e.off, LayerBytes(e, numLayers))
    requires forall l :: 0 <= l < |layers| ==> layers[l] == Layer(e.dtype, FlatShape(e, numLayers), data[l])
    ensures FlatSource(layers, e, region, numLayers)
  {
    assert Bytes(layers) == data;
  }

  method LoadBank(
      disk: seq<seq<Byte>>, shards: seq<Shard>, g: Groups, name: string, numLayers: Pos, chunk: nat, direct: bool,
      ghost files: seq<seq<Byte>>, ghost region: seq<Byte>, ghost limit: nat)
      returns (r: Result<seq<Layer>, BankError>)
    requires Laid(files, shards, region, limit) && Aligned(|region|) && MaybeTruncated(disk, files)
    requires GroupsIn(g, region) && 0 < chunk && (name in g.flat || name in g.perLayer)
    ensures r.Ok? <==> BankLoadable(disk, shards, g, name, numLayers)
    ensures r.Ok? ==> Source(r.value, g, name, region, numLayers)
  {
    hide Laid, MaybeTruncated, WindowsPresent, EntryPresent, FlatLayers, Carved, Present;
    if name in g.perLayer {
      var es := g.perLayer[name];
      var data := LoadPerLayer(disk, shards, es, numLayers, chunk, direct, files, region, limit);
      if data.Err? { return Err(data.error); }
      r := Ok(seq(numLayers, l requires 0 <= l < numLayers => Layer(es[l].dtype, es[l].shape, data.value[l])));
    } else {
      var e := g.flat[name];
      var data := LoadFlat(disk, shards, e, numLayers, chunk, direct, files, region, limit);
      if data.Err? { return Err(data.error); }
      r := Ok(seq(numLayers, l requires 0 <= l < numLayers => Layer(e.dtype, FlatShape(e, numLayers), data.value[l])));
      FlatSourceFrom(data.value, e, region, numLayers, r.value);
    }
  }

  // ----- Alpha vectors -----

  predicate IsAlphaEntry(e: Entry) { e.kind == BANK_KIND && IsAlpha(e.name) }

  /** The alpha entries by name. A repeated name keeps the later entry. */
  function Alphas(es: seq<Entry>): map<string, Entry> {
    if es == [] then map[] else
      var e, front := es[|es| - 1], Alphas(es[..|es| - 1]);
      if IsAlphaEntry(e) then front[e.name := e] else front
  }

  /** Of an index's bank entries the two alpha vectors are alphas, and all others are rows of banks. */
  lemma {:induction false} RowOrAlpha(e: Entry)
    ensures IsAlphaEntry(e) <==> e.kind == "experts_bank" && e.name in {"gate_up_alpha", "down_alpha"}
    ensures IsRow(e) <==> e.kind == "experts_bank" && e.name !in {"gate_up_alpha", "down_alpha"}
  {
  }

  /** An alpha entry whose name is not repeated is found, and whatever is found was such an entry. */
  lemma {:induction false} AlphaFound(es: seq<Entry>, k: nat)
    requires k < |es| && IsAlphaEntry(es[k])
    requires forall j :: k < j < |es| ==> es[j].name != es[k].name
    ensures es[k].name in Alphas(es) && Alphas(es)[es[k].name] == es[k]
  {
    hide IsAlpha;
    var n := |es| - 1;
    if k < n {
      forall j | k < j < n ensures es[..n][j].name != es[k].name {
        assert es[..n][j] == es[j];
      }
      AlphaFound(es[..n], k);
    }
  }

  lemma {:induction false} AlphaFrom(es: seq<Entry>, name: string) returns (k: nat)
    requires name in Alphas(es)
    ensures k < |es| && IsAlphaEntry(es[k]) && es[k].name == name
  {
    hide IsAlphaEntry;
    var n := |es| - 1;
    if IsAlphaEntry(es[n]) && es[n].name == name {
      k := n;
    } else {
      k := AlphaFrom(es[..n], name);
    }
  }

  ghost predicate AlphasPresent(disk: seq<seq<Byte>>, shards: seq<Shard>, es: seq<Entry>) {
    forall k :: 0 <= k < |es| && IsAlphaEntry(es[k]) ==> EntryPresent(disk, shards, es[k])
  }

  ghost predicate AlphasOf(alphas: map<string, Layer>, es: seq<Entry>, region: seq<Byte>) {
    && alphas.Keys == Alphas(es).Keys
    && forall name :: name in alphas ==> alphas[name] == LayerOf(Alphas(es)[name], region)
  }

  lemma {:induction false} AlphaStep(alphas: map<string, Layer>, es: seq<Entry>, region: seq<Byte>, e: Entry)
    requires AlphasOf(alphas, es, region)
    ensures AlphasOf(if IsAlphaEntry(e) then alphas[e.name := LayerOf(e, region)] else alphas, es + [e], region)
  {
    assert (es + [e])[..|es|] == es;
  }

  method LoadAlphas(
      disk: seq<seq<Byte>>, shards: seq<Shard>, es: seq<Entry>, chunk: nat, direct: bool,
      ghost files: seq<seq<Byte>>, ghost region: seq<Byte>, ghost limit: nat)
      returns (r: Result<map<string, Layer>, BankError>)
    requires Laid(files, shards, region, limit) && Aligned(|region|) && MaybeTruncated(disk, files) && 0 < chunk
    requires forall k :: 0 <= k < |es| ==> EntryIn(es[k], region)
    ensures r.Ok? <==> AlphasPresent(disk, shards, es)
    ensures r.Ok? ==> AlphasOf(r.value, es, region)
  {
    hide Laid, MaybeTruncated, EntryPresent, Carved, Present, IsAlpha;
    var alphas: map<string, Layer> := map[];
    assert es[..0] == [] && es[..|es|] == es;
    hide AlphasOf, Aligned;
    assert AlphasOf(alphas, [], region) by { NoAlphas(region); }
    for i := 0 to |es|
      invariant AlphasOf(alphas, es[..i], region)
      invariant forall k :: 0 <= k < i && IsAlphaEntry(es[k]) ==> EntryPresent(disk, shards, es[k])
    {
      var e := es[i];
      assert es[..i + 1] == es[..i] + [e];
      AlphaStep(alphas, es[..i], region, e);
      if IsAlphaEntry(e) {
        assert EntryIn(e, region);
        var data := ReadEntry(disk, shards, e, chunk, direct, files, region, limit);
        if data.Err? { return Err(ReadFailed(data.error)); }
        alphas := alphas[e.name := Layer(e.dtype, e.shape, data.value)];
      }
    }
    r := Ok(alphas);
  }

  lemma {:induction false} NoAlphas(region: seq<Byte>)
    ensures AlphasOf(map[], [], region)
  {
  }

  // ----- All banks -----

  datatype Banks = Banks(rows: map<string, seq<Layer>>, alphas: map<string, Layer>)

  /** The names of all row banks. */
  function Names(g: Groups): set<string> { g.flat.Keys + g.perLayer.Keys }

  predicate Mixed(g: Groups) {
    exists name :: name in g.flat && name in g.perLayer
  }

  predicate NoBanks(es: seq<Entry>) {
    forall k :: 0 <= k < |es| ==> es[k].kind != BANK_KIND
  }

  /** The recorded layer count is the model's, no name is in both layouts, and everything is there. */
  ghost predicate AllLoadable(disk: seq<seq<Byte>>, shards: seq<Shard>, es: seq<Entry>, recorded: Option<nat>,
        numLayers: Pos)
  {
    && recorded in {None, Some(numLayers)}
    && !Mixed(Group(es))
    && (forall name :: name in Names(Group(es)) ==> BankLoadable(disk, shards, Group(es), name, numLayers))
    && AlphasPresent(disk, shards, es)
  }

  ghost predicate BanksOf(v: Banks, es: seq<Entry>, region: seq<Byte>, numLayers: Pos)
  {
    && v.rows.Keys == Names(Group(es))
    && (forall name :: name in v.rows ==> Source(v.rows[name], Group(es), name, region, numLayers))
    && AlphasOf(v.alphas, es, region)
  }

  /** Loads all banks: none when there is no bank entry, and otherwise all of them or, when a recorded
      layer count differs, a name is in both layouts or an entry cannot be loaded, an error. */
  method LoadBanks(
      disk: seq<seq<Byte>>, index: Index, recorded: Option<nat>, numLayers: Pos, chunk: nat, direct: bool,
      ghost files: seq<seq<Byte>>, ghost ts: seq<Tensor>, ghost limit: nat)
      returns (r: Result<Option<Banks>, BankError>)
    requires Encodes(Checkpoint(index, files), ts, limit) && MaybeTruncated(disk, files) && 0 < chunk
    ensures r == Ok(None) <==> NoBanks(Entries(ts))
    ensures r.Ok? <==> NoBanks(Entries(ts)) || AllLoadable(disk, index.shards, Entries(ts), recorded, numLayers)
    ensures r.Ok? && r.value.Some? ==> BanksOf(r.value.value, Entries(ts), Region(ts), numLayers)
  {
    var es := index.tensors;
    var g := GroupEntries(es);
    AllEntriesIn(ts);
    GroupKeepsEntries(Entries(ts), Region(ts));
    assert es == Entries(ts) && Laid(files, index.shards, Region(ts), limit);
    if NoBanks(es) { return Ok(None); }
    hide Encodes, Laid, MaybeTruncated, Group, Region, Entries, BankLoadable, Source, AlphasPresent, AlphasOf, Mixed;
    if recorded.Some? && recorded != Some(numLayers) { return Err(LayerCountDiffers); }
    if Mixed(g) { return Err(MixedLayouts); }
    var alphas := LoadAlphas(disk, index.shards, es, chunk, direct, files, Region(ts), limit);
    if alphas.Err? { return Err(alphas.error); }
    var rows := LoadNames(disk, index.shards, g, numLayers, chunk, direct, files, Region(ts), limit);
    if rows.Err? { return Err(rows.error); }
    r := Ok(Some(Banks(rows.value, alphas.value)));
  }

  method LoadNames(
      disk: seq<seq<Byte>>, shards: seq<Shard>, g: Groups, numLayers: Pos, chunk: nat, direct: bool,
      ghost files: seq<seq<Byte>>, ghost region: seq<Byte>, ghost limit: nat)
      returns (r: Result<map<string, seq<Layer>>, BankError>)
    requires Laid(files, shards, region, limit) && Aligned(|region|) && MaybeTruncated(disk, files)
    requires GroupsIn(g, region) && 0 < chunk
    ensures r.Ok? <==> forall name :: name in Names(g) ==> BankLoadable(disk, shards, g, name, numLayers)
    ensures r.Ok? ==> r.value.Keys == Names(g)
    ensures r.Ok? ==> forall name :: name in Names(g) ==> Source(r.value[name], g, name, region, numLayers)
  {
    hide Laid, Aligned, MaybeTruncated, BankLoadable, Source, GroupsIn;
    var loaded: map<string, seq<Layer>> := map[];
    var rest := Names(g);
    while rest != {}
      invariant rest <= Names(g) && forall name :: name in loaded <==> name in Names(g) && name !in rest
      invariant forall name :: name in loaded ==> BankLoadable(disk, shards, g, name, numLayers)
      invariant forall name :: name in loaded ==> Source(loaded[name], g, name, region, numLayers)
      decreases |rest|
    {
      var name :| name in rest;
      var bank := LoadBank(disk, shards, g, name, numLayers, chunk, direct, files, region, limit);
      if bank.Err? { return Err(bank.error); }
      loaded := loaded[name := bank.value];
      rest := rest - {name};
    }
    assert loaded.Keys == Names(g);
    r := Ok(loaded);
  }

  lemma {:induction false} AllEntriesIn(ts: seq<Tensor>)
    ensures forall k :: 0 <= k < |ts| ==> EntryIn(Entries(ts)[k], Region(ts))
  {
    forall k | 0 <= k < |ts| ensures EntryIn(Entries(ts)[k], Region(ts)) {
      EntryLocatesTensor(ts, k);
    }
  }
}
