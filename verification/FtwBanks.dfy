/** Expert banks: one flat entry per bank, or one entry per bank and layer, and the loader that
    turns either layout into the same per-layer tensors. */
module FtwBanks {
  import opened Basics
  import opened FtwFormat
  import opened FtwReader
  import opened FtwLoad
  import opened LayerNames

  const BANK_KIND := "experts_bank"

  predicate IsAlpha(name: string) { name == "gate_up_alpha" || name == "down_alpha" }

  predicate IsRow(e: Entry) { e.kind == BANK_KIND && !IsAlpha(e.name) }

  /** Row entries split by layout. A repeated key keeps the later entry. */
  datatype Groups = Groups(flat: map<string, Entry>, perLayer: map<string, map<nat, Entry>>)

  function GroupStep(g: Groups, e: Entry): Groups {
    if !IsRow(e) then g else
      match MatchEntry(e.name)
      case None => g.(flat := g.flat[e.name := e])
      case Some((base, layer)) =>
        var layers := if base in g.perLayer then g.perLayer[base] else map[];
        g.(perLayer := g.perLayer[base := layers[layer := e]])
  }

  function Group(es: seq<Entry>): Groups {
    if es == [] then Groups(map[], map[]) else GroupStep(Group(es[..|es| - 1]), es[|es| - 1])
  }

  method GroupEntries(es: seq<Entry>) returns (g: Groups)
    ensures g == Group(es)
  {
    g := Groups(map[], map[]);
    for i := 0 to |es|
      invariant g == Group(es[..i])
    {
      g := GroupStep(g, es[i]);
      assert es[..i + 1][..i] == es[..i];
    }
    assert es[..|es|] == es;
  }

  ghost predicate HasLayer(g: Groups, base: string, layer: nat, e: Entry) {
    base in g.perLayer && layer in g.perLayer[base] && g.perLayer[base][layer] == e
  }

  /** An entry whose name nobody repeats later is found under its bank and layer. */
  lemma {:induction false} GroupFindsLayer(es: seq<Entry>, k: nat, base: string, layer: nat)
    requires k < |es| && IsRow(es[k]) && MatchEntry(es[k].name) == Some((base, layer))
    requires forall j :: k < j < |es| && IsRow(es[j]) ==> MatchEntry(es[j].name) != Some((base, layer))
    ensures HasLayer(Group(es), base, layer, es[k])
  {
    if k < |es| - 1 {
      var front := es[..|es| - 1];
      forall j | k < j < |front| && IsRow(front[j]) ensures MatchEntry(front[j].name) != Some((base, layer)) {
        assert front[j] == es[j];
      }
      GroupFindsLayer(front, k, base, layer);
    }
  }

  lemma {:induction false} GroupFindsFlat(es: seq<Entry>, k: nat)
    requires k < |es| && IsRow(es[k]) && MatchEntry(es[k].name) == None
    requires forall j :: k < j < |es| ==> es[j].name != es[k].name
    ensures es[k].name in Group(es).flat && Group(es).flat[es[k].name] == es[k]
  {
    if k < |es| - 1 {
      var front := es[..|es| - 1];
      forall j | k < j < |front| ensures front[j].name != es[k].name {
        assert front[j] == es[j];
      }
      GroupFindsFlat(front, k);
    }
  }

  /** Whatever is found came from a row entry of that name. */
  lemma {:induction false} FlatFrom(es: seq<Entry>, name: string) returns (k: nat)
    requires name in Group(es).flat
    ensures k < |es| && IsRow(es[k]) && MatchEntry(es[k].name) == None && es[k].name == name
    ensures Group(es).flat[name] == es[k]
  {
    hide MatchEntry, IsRow;
    var n := |es| - 1;
    if name in Group(es[..n]).flat && Group(es).flat[name] == Group(es[..n]).flat[name] {
      k := FlatFrom(es[..n], name);
    } else {
      k := n;
    }
  }

  lemma {:induction false} LayerFrom(es: seq<Entry>, base: string, layer: nat) returns (k: nat)
    requires base in Group(es).perLayer && layer in Group(es).perLayer[base]
    ensures k < |es| && IsRow(es[k]) && MatchEntry(es[k].name) == Some((base, layer))
    ensures Group(es).perLayer[base][layer] == es[k]
  {
    hide MatchEntry, IsRow;
    var n := |es| - 1;
    if HasLayer(Group(es[..n]), base, layer, Group(es).perLayer[base][layer]) {
      k := LayerFrom(es[..n], base, layer);
    } else {
      k := n;
    }
  }

  /** A bank found per layer has a layer. */
  lemma {:induction false} BaseHasLayer(es: seq<Entry>, base: string) returns (layer: nat)
    requires base in Group(es).perLayer
    ensures layer in Group(es).perLayer[base]
  {
    hide MatchEntry, IsRow;
    var n := |es| - 1;
    var front, e := Group(es[..n]), es[n];
    if IsRow(e) && MatchEntry(e.name).Some? && MatchEntry(e.name).value.0 == base {
      layer := MatchEntry(e.name).value.1;
    } else {
      layer := BaseHasLayer(es[..n], base);
    }
  }

  // ----- Flat layout: aligned windows around unaligned layers -----

  datatype BankError =
    | NoDimensions | UnevenLayers | WrongSize | LayersMissing | LayerCountDiffers | MixedLayouts
    | ReadFailed(error: ReadError)

  /** Bytes of one layer of a flat bank. */
  function LayerBytes(e: Entry, numLayers: Pos): nat
    requires e.shape != []
  {
    e.shape[0] / numLayers * (Product(e.shape[1..]) * e.elsize)
  }

  lemma {:induction false} LayerBytesAre(e: Entry, numLayers: Pos)
    requires e.shape != []
    ensures LayerBytes(e, numLayers) == e.shape[0] / numLayers * (Product(e.shape[1..]) * e.elsize)
  {
  }

  /** `len` bytes of the region from `off`, or nothing if they are not all there. */
  function Carved(region: seq<Byte>, off: nat, len: nat): seq<Byte> {
    if off + len <= |region| then region[off..off + len] else []
  }

  /** Reads `len` bytes at an unaligned offset: the aligned window around them, then the slice
      behind the head padding. */
  method ReadWindow(disk: seq<seq<Byte>>, shards: seq<Shard>, off: nat, len: nat, chunk: nat, direct: bool,
      ghost files: seq<seq<Byte>>, ghost region: seq<Byte>, ghost limit: nat) returns (r: Result<seq<Byte>, ReadError>)
    requires Laid(files, shards, region, limit) && Aligned(|region|) && MaybeTruncated(disk, files)
    requires 0 < chunk && off + len <= |region|
    ensures r.Ok? <==> WindowPresent(disk, shards, off, len)
    ensures r.Ok? ==> r.value == Carved(region, off, len)
  {
    hide Laid, MaybeTruncated, Present;
    var winOff, winEnd := AlignDown(off), AlignUp(off + len);
    var headPad := off - winOff;
    AlignUpLeast(off + len, |region|);
    AlignedSum(winOff, winEnd - winOff);
    var window := ReadBuffer(disk, shards, winOff, winEnd - winOff, chunk, direct, files, region, limit);
    if window.Err? {
      return Err(window.error);
    }
    CarvedFromWindow(region, winOff, winEnd, off, len);
    return Ok(window.value[headPad..headPad + len]);
  }

  lemma {:induction false} CarvedFromWindow(region: seq<Byte>, winOff: nat, winEnd: nat, off: nat, len: nat)
    requires winOff <= off && off + len <= winEnd <= |region|
    ensures region[winOff..winEnd][off - winOff..off - winOff + len] == Carved(region, off, len)
  {
    SliceOfSlice(region, winOff, winEnd - winOff, off - winOff, len);
  }

  /** Where layer `l` of a flat bank starts. */
  function LayerAt(off: nat, size: nat, l: nat): nat {
    off + l * size
  }

  lemma {:induction false} LayerInside(off: nat, size: nat, l: nat, numLayers: Pos)
    ensures l < numLayers ==> LayerAt(off, size, l) + size <= LayerAt(off, size, numLayers)
  {
    if l < numLayers {
      Monotone(l + 1, numLayers, size);
    }
  }

  ghost predicate WindowPresent(disk: seq<seq<Byte>>, shards: seq<Shard>, off: nat, size: nat) {
    AlignDown(off) < AlignUp(off + size) && Present(disk, shards, AlignDown(off), AlignUp(off + size))
  }

  ghost predicate WindowsPresent(disk: seq<seq<Byte>>, shards: seq<Shard>, off: nat, size: nat, n: nat) {
    forall l: nat :: l < n ==> WindowPresent(disk, shards, LayerAt(off, size, l), size)
  }

  /** The layers of a flat bank: layer `l` is slice `l` of the entry's bytes. */
  ghost predicate FlatLayers(layers: seq<seq<Byte>>, region: seq<Byte>, off: nat, size: nat) {
    forall l :: 0 <= l < |layers| ==> layers[l] == Carved(region, LayerAt(off, size, l), size)
  }

  /** The shape checks the loader makes on a flat entry. */
  predicate FlatShapeOk(e: Entry, numLayers: Pos)
  {
    e.shape != [] && e.shape[0] % numLayers == 0 && LayerBytes(e, numLayers) * numLayers == e.nbytes
  }

  method LoadFlat(disk: seq<seq<Byte>>, shards: seq<Shard>, e: Entry, numLayers: Pos, chunk: nat, direct: bool,
      ghost files: seq<seq<Byte>>, ghost region: seq<Byte>, ghost limit: nat)
          returns (r: Result<seq<seq<Byte>>, BankError>)
    requires Laid(files, shards, region, limit) && Aligned(|region|) && MaybeTruncated(disk, files)
    requires 0 < chunk && e.off + e.nbytes <= |region|
    ensures r.Ok? <==>
        (FlatShapeOk(e, numLayers) && WindowsPresent(disk, shards, e.off, LayerBytes(e, numLayers), numLayers))
    ensures r.Ok? ==> |r.value| == numLayers && FlatLayers(r.value, region, e.off, LayerBytes(e, numLayers))
    ensures r == Err(NoDimensions) <==> e.shape == []
    ensures r == Err(UnevenLayers) <==> e.shape != [] && e.shape[0] % numLayers != 0
    ensures r == Err(WrongSize) <==> (
      && e.shape != [] && e.shape[0] % numLayers == 0
      && e.shape[0] / numLayers * (Product(e.shape[1..]) * e.elsize) * numLayers != e.nbytes)
  {
    hide Laid, MaybeTruncated, Present, Carved, LayerAt, LayerBytes, WindowPresent, AlignUp, AlignDown;
    if e.shape == [] {
      return Err(NoDimensions);
    }
    if e.shape[0] % numLayers != 0 {
      return Err(UnevenLayers);
    }
    var size := LayerBytes(e, numLayers);
    LayerBytesAre(e, numLayers);
    if size * numLayers != e.nbytes {
      return Err(WrongSize);
    }
    var layers: seq<seq<Byte>> := [];
    LayersEnd(e.off, size, numLayers);
    for l := 0 to numLayers
      invariant |layers| == l && FlatLayers(layers, region, e.off, size)
      invariant WindowsPresent(disk, shards, e.off, size, l)
    {
      LayerInside(e.off, size, l, numLayers);
      var layer := ReadWindow(disk, shards, LayerAt(e.off, size, l), size, chunk, direct, files, region, limit);
      if layer.Err? {
        return Err(ReadFailed(layer.error));
      }
      layers := layers + [layer.value];
    }
    return Ok(layers);
  }

  lemma {:induction false} LayersEnd(off: nat, size: nat, numLayers: nat)
    ensures LayerAt(off, size, numLayers) == off + size * numLayers
  {
  }

  // ----- Per-layer layout -----

  method ReadEntry(disk: seq<seq<Byte>>, shards: seq<Shard>, e: Entry, chunk: nat, direct: bool,
      ghost files: seq<seq<Byte>>, ghost region: seq<Byte>, ghost limit: nat) returns (r: Result<seq<Byte>, ReadError>)
    requires Laid(files, shards, region, limit) && Aligned(|region|) && MaybeTruncated(disk, files)
    requires Aligned(e.off) && 0 < chunk && e.off + e.nbytes <= |region|
    ensures r.Ok? <==> EntryPresent(disk, shards, e)
    ensures r.Ok? ==> r.value == Carved(region, e.off, e.nbytes)
  {
    hide Laid, MaybeTruncated, Present;
    r := ReadBuffer(disk, shards, e.off, e.nbytes, chunk, direct, files, region, limit);
  }

  predicate ExactlyLayers(byLayer: map<nat, Entry>, numLayers: nat) {
    (forall l :: l in byLayer ==> l < numLayers) && forall l :: 0 <= l < numLayers ==> l in byLayer
  }

  /** Reads the layers of a bank stored one entry per layer; they must be exactly `0..numLayers`. */
  method LoadPerLayer(disk: seq<seq<Byte>>, shards: seq<Shard>, byLayer: map<nat, Entry>, numLayers: nat, chunk: nat,
        direct: bool,
      ghost files: seq<seq<Byte>>, ghost region: seq<Byte>, ghost limit: nat)
          returns (r: Result<seq<seq<Byte>>, BankError>)
    requires Laid(files, shards, region, limit) && Aligned(|region|) && MaybeTruncated(disk, files) && 0 < chunk
    requires forall l :: l in byLayer ==> Aligned(byLayer[l].off) && byLayer[l].off + byLayer[l].nbytes <= |region|
    ensures r.Ok? ==> |r.value| == numLayers && forall l :: 0 <= l < numLayers ==>
      l in byLayer && r.value[l] == Carved(region, byLayer[l].off, byLayer[l].nbytes)
    ensures r.Ok? <==>
        ((forall l :: l in byLayer <==> 0 <= l < numLayers) &&
            forall l :: l in byLayer ==> EntryPresent(disk, shards, byLayer[l]))
    ensures r == Err(LayersMissing) <==> !(forall l :: l in byLayer <==> 0 <= l < numLayers)
  {
    hide Laid, MaybeTruncated, Present, Carved, AlignUp, Aligned, EntryPresent;
    if !ExactlyLayers(byLayer, numLayers) {
      return Err(LayersMissing);
    }
    var layers: seq<seq<Byte>> := [];
    for l := 0 to numLayers
      invariant |layers| == l
      invariant forall i :: 0 <= i < l ==> layers[i] == Carved(region, byLayer[i].off, byLayer[i].nbytes)
      invariant forall i :: 0 <= i < l ==> EntryPresent(disk, shards, byLayer[i])
    {
      var e := byLayer[l];
      var layer := ReadEntry(disk, shards, e, chunk, direct, files, region, limit);
      if layer.Err? {
        return Err(ReadFailed(layer.error));
      }
      layers := layers + [layer.value];
    }
    return Ok(layers);
  }

  ghost predicate EntryPresent(disk: seq<seq<Byte>>, shards: seq<Shard>, e: Entry) {
    0 < e.nbytes && Present(disk, shards, e.off, e.off + AlignUp(e.nbytes))
  }

  // ----- The two layouts hold the same bank -----

  /** Equally sized layers, concatenated, are found again at their multiples of the size. */
  lemma {:induction false} ConcatSlice(parts: seq<seq<Byte>>, size: nat, l: nat)
    requires l < |parts| && forall i :: 0 <= i < |parts| ==> |parts[i]| == size
    ensures |Concat(parts)| == |parts| * size && l * size + size <= |Concat(parts)|
    ensures Concat(parts)[l * size..l * size + size] == parts[l]
  {
    var front := parts[..|parts| - 1];
    assert |parts| * size == |front| * size + size;
    if l < |front| {
      ConcatSlice(front, size, l);
      PrefixSlice(Concat(front), parts[|front|], l * size, l * size + size);
    } else if |front| > 0 {
      ConcatSlice(front, size, 0);
    }
  }

  /** A bank: one tensor per layer, all of `experts` rows of the same shape. */
  datatype Bank = Bank(name: string, dtype: string, elsize: nat, experts: nat, rowShape: seq<nat>,
      layers: seq<seq<Byte>>)

  ghost predicate ValidBank(b: Bank) {
    && b.name != "" && '\n' !in b.name && MatchEntry(b.name) == None && !IsAlpha(b.name)
    && 0 < |b.layers|
    && forall l :: 0 <= l < |b.layers| ==> |b.layers[l]| == LayerSize(b)
  }

  /** What the materialising conversion writes: the layers concatenated along the first dimension. */
  function FlatTensor(b: Bank): Tensor {
    Tensor(b.name, BANK_KIND, b.dtype, b.elsize, [|b.layers| * b.experts] + b.rowShape, Concat(b.layers))
  }

  /** The flat entry of a bank passes the shape checks, and its slices are the bank's layers. */
  lemma {:induction false} FlatLoadsBank(ts: seq<Tensor>, k: nat, b: Bank, layers: seq<seq<Byte>>)
    requires ValidBank(b) && k < |ts| && ts[k] == FlatTensor(b) && |layers| == |b.layers|
    requires FlatLayers(layers, Region(ts), Entries(ts)[k].off, LayerSize(b))
    ensures FlatShapeOk(Entries(ts)[k], |b.layers|) && LayerBytes(Entries(ts)[k], |b.layers|) == LayerSize(b)
    ensures layers == b.layers
  {
    EntryLocatesTensor(ts, k);
    var e := Entries(ts)[k];
    FlatSize(b, e);
    forall l | 0 <= l < |b.layers| ensures layers[l] == b.layers[l] {
      SliceIsLayer(Region(ts), e, b, l);
    }
  }

  function LayerSize(b: Bank): nat {
    b.experts * (Product(b.rowShape) * b.elsize)
  }

  lemma {:induction false} SliceIsLayer(region: seq<Byte>, e: Entry, b: Bank, l: nat)
    requires l < |b.layers| && forall i :: 0 <= i < |b.layers| ==> |b.layers[i]| == LayerSize(b)
    requires e.nbytes == |Concat(b.layers)| && e.off + e.nbytes <= |region| &&
        region[e.off..e.off + e.nbytes] == Concat(b.layers)
    ensures Carved(region, LayerAt(e.off, LayerSize(b), l), LayerSize(b)) == b.layers[l]
  {
    var size := LayerSize(b);
    ConcatSlice(b.layers, size, l);
    SliceOfSlice(region, e.off, e.nbytes, LayerAt(0, size, l), size);
  }

  lemma {:induction false} SliceOfSlice(a: seq<Byte>, off: nat, n: nat, i: nat, m: nat)
    requires off + n <= |a| && i + m <= n
    ensures a[off..off + n][i..i + m] == a[off + i..off + i + m]
  {
    var s := a[off..off + n];
    var t, u := s[i..i + m], a[off + i..off + i + m];
    assert forall j :: 0 <= j < m ==> t[j] == u[j];
  }

  lemma {:induction false} FlatSize(b: Bank, e: Entry)
    requires ValidBank(b) && e == EntryAt(FlatTensor(b), e.off)
    ensures LayerBytes(e, |b.layers|) == LayerSize(b)
    ensures FlatShapeOk(e, |b.layers|)
  {
    assert e.shape[1..] == b.rowShape;
    MultipleDivides(|b.layers|, b.experts);
    ConcatSlice(b.layers, LayerSize(b), 0);
  }

  lemma {:induction false} MultipleDivides(n: Pos, m: nat)
    ensures n * m / n == m && n * m % n == 0
  {
    var q, r := n * m / n, n * m % n;
    assert n * (m - q) == r;
    if m > q {
      Monotone(1, m - q, n);
    }
  }
}
