/** The row geometry of a sharded auxiliary bank, the rows a probe samples of it, and the validator
    that checks the probe's report again without knowing how it was made. */
module PleProbe {
  import opened Basics
  import opened LayerNames

  /** Where a shard's rows lie in the bank. */
  datatype Shard = Shard(index: nat, rows: int, start: int, end: int)

  // ----- Layout -----

  /** Rows of the first `k` shards. */
  function Sum(rows: seq<int>, k: nat): int
    requires k <= |rows|
  {
    if k == 0 then 0 else Sum(rows, k - 1) + rows[k - 1]
  }

  function Layout(rows: seq<int>): (r: seq<Shard>)
    ensures |r| == |rows| && forall k :: 0 <= k < |r| ==> r[k] == Shard(k, rows[k], Sum(rows, k), Sum(rows, k + 1))
  {
    seq(|rows|, k requires 0 <= k < |rows| => Shard(k, rows[k], Sum(rows, k), Sum(rows, k + 1)))
  }

  ghost predicate Positive(rows: seq<int>) {
    forall k :: 0 <= k < |rows| ==> 0 < rows[k]
  }

  lemma {:induction false} SumGrows(rows: seq<int>, i: nat, j: nat)
    requires Positive(rows) && i <= j <= |rows|
    ensures 0 <= Sum(rows, i) && Sum(rows, i) + (j - i) <= Sum(rows, j)
    decreases i + j
  {
    if i < j {
      SumGrows(rows, i, j - 1);
    } else if i > 0 {
      SumGrows(rows, i - 1, i - 1);
    }
  }

  lemma {:induction false} SumPrefix(rows: seq<int>, n: nat, k: nat)
    requires k <= n <= |rows|
    ensures Sum(rows[..n], k) == Sum(rows, k)
  {
    if k > 0 { SumPrefix(rows, n, k - 1); }
  }

  // ----- Tensors -----

  /** A shard's tensor in the checkpoint. */
  datatype Tensor = Tensor(span: Shard, name: string, dtype: string)

  function Spans(tensors: seq<Tensor>): (r: seq<Shard>)
    ensures |r| == |tensors| && forall k :: 0 <= k < |r| ==> r[k] == tensors[k].span
  {
    seq(|tensors|, k requires 0 <= k < |tensors| => tensors[k].span)
  }

  /** The part of a tensor's name that says which shard it is. */
  function ShardPart(k: nat): string { ".shard_" + Decimal(k) + ".weight" }

  predicate PartAt(s: string, part: string, i: nat) {
    i + |part| <= |s| && s[i..i + |part|] == part
  }

  ghost predicate Contains(s: string, part: string) {
    exists i :: PartAt(s, part, i)
  }

  /** The tensors of a bank: one per shard, of one type. */
  function Tensors(base: string, dtype: string, rows: seq<int>): (r: seq<Tensor>)
    ensures |r| == |rows|
    ensures forall k :: 0 <= k < |r| ==> r[k] == Tensor(Layout(rows)[k], base + ShardPart(k), dtype)
  {
    seq(|rows|, k requires 0 <= k < |rows| => Tensor(Layout(rows)[k], base + ShardPart(k), dtype))
  }

  lemma {:induction false} TensorSpans(base: string, dtype: string, rows: seq<int>)
    ensures Spans(Tensors(base, dtype, rows)) == Layout(rows)
  {
  }

  /** What the checkpoint says of a tensor. */
  datatype Meta = Meta(shape: seq<int>, dtype: string)

  /** A shard's tensor is there, with rows, as wide as the bank. */
  predicate IsShard(m: Option<Meta>, width: int) {
    m.Some? && |m.value.shape| == 2 && 0 < m.value.shape[0] && m.value.shape[1] == width
  }

  ghost predicate AllShards(found: seq<Option<Meta>>, width: int) {
    forall k :: 0 <= k < |found| ==> IsShard(found[k], width)
  }

  function RowsIn(found: seq<Option<Meta>>): (r: seq<int>)
    requires forall k :: 0 <= k < |found| ==> found[k].Some? && |found[k].value.shape| == 2
    ensures |r| == |found| && forall k :: 0 <= k < |r| ==> r[k] == found[k].value.shape[0]
  {
    seq(|found|, k requires 0 <= k < |found| => found[k].value.shape[0])
  }

  ghost predicate OneType(found: seq<Option<Meta>>) {
    && found != []
    && forall k :: 0 <= k < |found| ==> found[k].Some? && found[0].Some? && found[k].value.dtype == found[0].value.dtype
  }

  /** A declared eight-bit type must be the stored one; other declarations are not looked at. */
  predicate DeclaredOk(declared: string, dtype: string) {
    declared in {"float8_e4m3fn", "fp8_e4m3fn"} ==> dtype in {"F8_E4M3", "F8_E4M3FN"}
  }

  function Product(dims: seq<int>): int {
    if dims == [] then 1 else Product(dims[..|dims| - 1]) * dims[|dims| - 1]
  }

  /** The scale is there, with one value or one for each shard. */
  predicate ScaleOk(scale: Option<seq<int>>, parts: nat) {
    scale.Some? && Product(scale.value) in {1, parts}
  }

  /** The checkpoint has the bank that the configuration describes. */
  ghost predicate HasBank(found: seq<Option<Meta>>, width: int, declared: string, scale: Option<seq<int>>, rows: int) {
    && AllShards(found, width) && OneType(found)
    && DeclaredOk(declared, found[0].value.dtype) && ScaleOk(scale, |found|)
    && Sum(RowsIn(found), |found|) == rows
  }

  lemma {:induction false} HasBankIff(found: seq<Option<Meta>>, width: int, declared: string,
      scale: Option<seq<int>>, rows: int)
    ensures HasBank(found, width, declared, scale, rows) <==> (
      && found != [] && found[0].Some?
      && (forall k :: 0 <= k < |found| ==> (
          && found[k].Some? && |found[k].value.shape| == 2 && 0 < found[k].value.shape[0]
          && found[k].value.shape[1] == width && found[k].value.dtype == found[0].value.dtype))
      && (declared == "float8_e4m3fn" || declared == "fp8_e4m3fn" ==>
          found[0].value.dtype == "F8_E4M3" || found[0].value.dtype == "F8_E4M3FN")
      && scale.Some? && (Product(scale.value) == 1 || Product(scale.value) == |found|)
      && Sum(RowsIn(found), |found|) == rows)
  {
    forall k | 0 <= k < |found| && AllShards(found, width) ensures found[k].Some? {
      assert IsShard(found[k], width);
    }
  }

  lemma {:induction false} ProductAdds(dims: seq<int>, n: int)
    ensures Product([]) == 1 && Product(dims + [n]) == Product(dims) * n
  {
    assert (dims + [n])[..|dims|] == dims;
  }

  /** Shards laid end to end under their names. `rows` is what the hash layout addresses. */
  method Discover(base: string, found: seq<Option<Meta>>, width: int, declared: string, scale: Option<seq<int>>,
      rows: int) returns (r: Option<seq<Tensor>>)
    ensures r.Some? <==> (
      && found != [] && found[0].Some?
      && (forall k :: 0 <= k < |found| ==> (
          && found[k].Some? && |found[k].value.shape| == 2 && 0 < found[k].value.shape[0]
          && found[k].value.shape[1] == width && found[k].value.dtype == found[0].value.dtype))
      && (declared == "float8_e4m3fn" || declared == "fp8_e4m3fn" ==>
          found[0].value.dtype == "F8_E4M3" || found[0].value.dtype == "F8_E4M3FN")
      && scale.Some? && (Product(scale.value) == 1 || Product(scale.value) == |found|)
      && Sum(RowsIn(found), |found|) == rows)
    ensures r.Some? ==> r.value == Tensors(base, found[0].value.dtype, RowsIn(found)) && Positive(RowsIn(found))
  {
    var tensors: seq<Tensor> := [];
    var start := 0;
    var oneType := true;
    HasBankIff(found, width, declared, scale, rows);
    hide AllShards, RowsIn, Tensors, Layout, Sum, Positive;
    NoneLaid(base, found, width);
    for k := 0 to |found|
      invariant Laid(base, found, width, k, tensors, start)
      invariant oneType <==> forall i :: 0 <= i < k ==> tensors[i].dtype == tensors[0].dtype
    {
      LayNext(base, found, width, k, tensors, start);
      if !IsShard(found[k], width) { return None; }
      var m := found[k].value;
      tensors := tensors + [Tensor(Shard(k, m.shape[0], start, start + m.shape[0]), base + ShardPart(k), m.dtype)];
      start := start + m.shape[0];
      oneType := oneType && m.dtype == tensors[0].dtype;
    }
    AllLaid(base, found, width, tensors, start);
    if tensors == [] || !oneType || !DeclaredOk(declared, tensors[0].dtype) { return None; }
    if !ScaleOk(scale, |found|) || start != rows { return None; }
    r := Some(tensors);
  }

  /** Where the loop over the shards stands after `k` of them. */
  ghost predicate Laid(base: string, found: seq<Option<Meta>>, width: int, k: nat, tensors: seq<Tensor>, start: int) {
    && k == |tensors| <= |found| && AllShards(found[..k], width)
    && start == Sum(RowsIn(found[..k]), k)
    && forall i :: 0 <= i < k ==>
        tensors[i] == Tensor(Layout(RowsIn(found[..k]))[i], base + ShardPart(i), found[i].value.dtype)
  }

  lemma {:induction false} NoneLaid(base: string, found: seq<Option<Meta>>, width: int)
    ensures Laid(base, found, width, 0, [], 0)
  {
  }

  lemma {:induction false} LayNext(base: string, found: seq<Option<Meta>>, width: int, k: nat, tensors: seq<Tensor>,
        start: int)
    requires k < |found| && Laid(base, found, width, k, tensors, start)
    ensures !IsShard(found[k], width) ==> !AllShards(found, width)
    ensures IsShard(found[k], width) ==>
      var m := found[k].value;
      Laid(base, found, width, k + 1, tensors + [Tensor(Shard(k, m.shape[0], start, start + m.shape[0]),
          base + ShardPart(k), m.dtype)], start + m.shape[0])
  {
    if IsShard(found[k], width) {
      AllShardsNext(found, width, k);
      var before, now := RowsIn(found[..k]), RowsIn(found[..k + 1]);
      assert now == before + [found[k].value.shape[0]];
      LayoutGrows(before, found[k].value.shape[0]);
      hide Layout, Sum, ShardPart, AllShards, RowsIn;
    }
  }

  lemma {:induction false} AllShardsNext(found: seq<Option<Meta>>, width: int, k: nat)
    requires k < |found| && AllShards(found[..k], width) && IsShard(found[k], width)
    ensures AllShards(found[..k + 1], width)
  {
    hide IsShard;
    assert found[..k + 1] == found[..k] + [found[k]];
  }

  lemma {:induction false} AllLaid(base: string, found: seq<Option<Meta>>, width: int, tensors: seq<Tensor>, start: int)
    requires Laid(base, found, width, |found|, tensors, start)
    ensures AllShards(found, width) && Positive(RowsIn(found)) && start == Sum(RowsIn(found), |found|)
    ensures OneType(found) <==> tensors != [] && forall i :: 0 <= i < |found| ==> tensors[i].dtype == tensors[0].dtype
    ensures OneType(found) ==> tensors == Tensors(base, found[0].value.dtype, RowsIn(found))
  {
    assert found[..|found|] == found;
    TypesOf(found, width, tensors);
    if OneType(found) { OneTypeLaid(base, found, width, tensors); }
    hide Layout, Sum, ShardPart, Tensors, OneType;
  }

  lemma {:induction false} TypesOf(found: seq<Option<Meta>>, width: int, tensors: seq<Tensor>)
    requires AllShards(found, width) && |tensors| == |found|
    requires forall i :: 0 <= i < |found| ==> tensors[i].dtype == found[i].value.dtype
    ensures OneType(found) <==> tensors != [] && forall i :: 0 <= i < |found| ==> tensors[i].dtype == tensors[0].dtype
  {
    forall i | 0 <= i < |found| ensures found[i].Some? { assert IsShard(found[i], width); }
    hide AllShards;
  }

  lemma {:induction false} OneTypeLaid(base: string, found: seq<Option<Meta>>, width: int, tensors: seq<Tensor>)
    requires AllShards(found, width) && OneType(found) && |tensors| == |found|
    requires forall i :: 0 <= i < |found| ==>
        tensors[i] == Tensor(Layout(RowsIn(found))[i], base + ShardPart(i), found[i].value.dtype)
    ensures tensors == Tensors(base, found[0].value.dtype, RowsIn(found))
  {
    hide Layout, ShardPart, AllShards;
  }

  /** Which shard holds a row, and where, by bisection of the shard starts; fails outside the bank. */
  method Locate(shards: seq<Shard>, row: int, ghost rows: seq<int>) returns (r: Option<(nat, int)>)
    requires shards == Layout(rows) && Positive(rows) && rows != []
    ensures r.Some? <==> 0 <= row < Sum(rows, |rows|)
    ensures r.Some? ==>
        r.value.0 < |rows| && 0 <= r.value.1 < rows[r.value.0] && Sum(rows, r.value.0) + r.value.1 == row
  {
    if !(0 <= row < shards[|shards| - 1].end) { return None; }
    var lo, hi := 0, |shards|;
    while lo < hi
      invariant 0 <= lo <= hi <= |shards|
      invariant lo > 0 ==> Sum(rows, lo - 1) <= row
      invariant row < Sum(rows, hi)
    {
      var mid := (lo + hi) / 2;
      if row < shards[mid].start { hi := mid; } else { lo := mid + 1; }
    }
    r := Some((lo - 1, row - shards[lo - 1].start));
  }

  /** A row lies in one shard only, so finding it undoes adding it to the shard's start. */
  lemma {:induction false} RowIsInOne(rows: seq<int>, i: nat, x: int, j: nat, y: int)
    requires Positive(rows) && i < |rows| && j < |rows| && 0 <= x < rows[i] && 0 <= y < rows[j]
    ensures 0 <= Sum(rows, i) + x < Sum(rows, |rows|)
    ensures Sum(rows, i) + x == Sum(rows, j) + y <==> i == j && x == y
  {
    SumGrows(rows, i + 1, |rows|);
    SumGrows(rows, i, i);
    if i < j { SumGrows(rows, i + 1, j); }
    if j < i { SumGrows(rows, j + 1, i); }
  }

  // ----- Samples -----

  datatype Kind = Boundary | Hash(head: nat)

  datatype Sample = Sample(kind: Kind, row: int, shard: nat, local: int)

  /** A row some head of the hasher reads. */
  datatype Hit = Hit(row: int, head: nat)

  function Edges(rows: seq<int>, n: nat): (r: seq<Sample>)
    requires n <= |rows|
    ensures |r| == 2 * n
  {
    if n == 0 then [] else
      Edges(rows, n - 1) + [Sample(Boundary, Sum(rows, n - 1), n - 1, 0),
          Sample(Boundary, Sum(rows, n) - 1, n - 1, rows[n - 1] - 1)]
  }

  /** The sample names the shard that holds its row, and the row's place in it. */
  ghost predicate Located(rows: seq<int>, s: Sample) {
    s.shard < |rows| && 0 <= s.local < rows[s.shard] && s.row == Sum(rows, s.shard) + s.local
  }

  ghost predicate HitsInside(rows: seq<int>, hits: seq<Hit>) {
    forall i :: 0 <= i < |hits| ==> 0 <= hits[i].row < Sum(rows, |rows|)
  }

  /** Both kinds of heads are read. */
  ghost predicate BothHeads(hits: seq<Hit>, split: nat) {
    exists i, j :: 0 <= i < |hits| && 0 <= j < |hits| && hits[i].head < split <= hits[j].head
  }

  /** Both ends of every shard, then the hits. */
  ghost predicate IsSampled(rows: seq<int>, hits: seq<Hit>, samples: seq<Sample>) {
    && |samples| == 2 * |rows| + |hits|
    && samples[..2 * |rows|] == Edges(rows, |rows|)
    && (forall i :: 0 <= i < |samples| ==> Located(rows, samples[i]))
    && (forall i :: 0 <= i < |hits| ==>
        samples[2 * |rows| + i].row == hits[i].row && samples[2 * |rows| + i].kind == Hash(hits[i].head))
  }

  method BuildSamples(shards: seq<Shard>, hits: seq<Hit>, split: nat, ghost rows: seq<int>)
        returns (r: Option<seq<Sample>>)
    requires shards == Layout(rows) && Positive(rows) && rows != []
    ensures r.Some? <==> (
      && (forall i :: 0 <= i < |hits| ==> 0 <= hits[i].row < Sum(rows, |rows|))
      && exists i, j :: 0 <= i < |hits| && 0 <= j < |hits| && hits[i].head < split <= hits[j].head)
    ensures r.Some? ==> IsSampled(rows, hits, r.value)
    ensures r.Some? ==> forall i :: 0 <= i < |r.value| ==> (
      var x := r.value[i];
      && x.shard < |rows| && 0 <= x.local < rows[x.shard] && x.row == Sum(rows, x.shard) + x.local
      && (2 * |rows| <= i ==> x.kind == Hash(hits[i - 2 * |rows|].head) && x.row == hits[i - 2 * |rows|].row))
  {
    var edges := BuildEdges(shards, rows);
    NoneTaken(rows, hits, split);
    hide *;
    r := TakeHits(shards, hits, split, rows, edges);
  }

  lemma {:induction false} NoEdges(rows: seq<int>)
    ensures Edges(rows, 0) == []
  {
  }

  lemma {:induction false} NextEdges(rows: seq<int>, n: nat)
    requires n < |rows|
    ensures Edges(rows, n + 1) ==
            Edges(rows, n) + [Sample(Boundary, Sum(rows, n), n, 0),
                Sample(Boundary, Sum(rows, n + 1) - 1, n, rows[n] - 1)]
  {
  }

  method BuildEdges(shards: seq<Shard>, ghost rows: seq<int>) returns (samples: seq<Sample>)
    requires shards == Layout(rows)
    ensures samples == Edges(rows, |rows|)
  {
    samples := [];
    hide Edges, Sum, Layout;
    NoEdges(rows);
    for k := 0 to |shards|
      invariant samples == Edges(rows, k)
    {
      var s := shards[k];
      NextEdges(rows, k);
      samples := samples + [Sample(Boundary, s.start, s.index, 0), Sample(Boundary, s.end - 1, s.index, s.rows - 1)];
    }
  }

  method TakeHits(shards: seq<Shard>, hits: seq<Hit>, split: nat, ghost rows: seq<int>, edges: seq<Sample>)
        returns (r: Option<seq<Sample>>)
    requires shards == Layout(rows) && Positive(rows) && rows != [] && Taken(rows, hits, split, 0, edges, false, false)
    ensures r.Some? <==> HitsInside(rows, hits) && BothHeads(hits, split)
    ensures r.Some? ==> IsSampled(rows, hits, r.value)
  {
    var samples, low, high := edges, false, false;
    hide Taken, IsSampled, BothHeads, Located, Sum, Layout, Positive;
    for i := 0 to |hits|
      invariant Taken(rows, hits, split, i, samples, low, high)
    {
      var at := Locate(shards, hits[i].row, rows);
      if at.None? { return None; }
      var s := Sample(Hash(hits[i].head), hits[i].row, at.value.0, at.value.1);
      TakeOne(rows, hits, split, i, samples, low, high, s);
      samples := samples + [s];
      low, high := low || hits[i].head < split, high || split <= hits[i].head;
    }
    TakenAll(rows, hits, split, samples, low, high);
    r := if low && high then Some(samples) else None;
  }

  lemma {:induction false} TakenAll(rows: seq<int>, hits: seq<Hit>, split: nat, samples: seq<Sample>, low: bool,
        high: bool)
    requires Taken(rows, hits, split, |hits|, samples, low, high)
    ensures IsSampled(rows, hits, samples) && HitsInside(rows, hits)
    ensures low && high <==> BothHeads(hits, split)
  {
    assert hits[..|hits|] == hits;
    hide IsSampled;
  }

  /** Where the loop over the hits stands after `i` of them. */
  ghost predicate Taken(rows: seq<int>, hits: seq<Hit>, split: nat, i: nat, samples: seq<Sample>, low: bool,
        high: bool) {
    && i <= |hits|
    && IsSampled(rows, hits[..i], samples)
    && HitsInside(rows, hits[..i])
    && (low <==> exists k :: 0 <= k < i && hits[k].head < split)
    && (high <==> exists k :: 0 <= k < i && split <= hits[k].head)
  }

  lemma {:induction false} NoneTaken(rows: seq<int>, hits: seq<Hit>, split: nat)
    requires Positive(rows)
    ensures Taken(rows, hits, split, 0, Edges(rows, |rows|), false, false)
  {
    EdgesLocated(rows, |rows|);
  }

  lemma {:induction false} TakeOne(rows: seq<int>, hits: seq<Hit>, split: nat, i: nat, samples: seq<Sample>,
        low: bool, high: bool, s: Sample)
    requires i < |hits| && Taken(rows, hits, split, i, samples, low, high)
    requires s.shard < |rows| && 0 <= s.local < rows[s.shard] && s.row == Sum(rows, s.shard) + s.local
    requires s.row == hits[i].row && s.kind == Hash(hits[i].head) && 0 <= s.row < Sum(rows, |rows|)
    ensures Taken(rows, hits, split, i + 1, samples + [s], low || hits[i].head < split, high || split <= hits[i].head)
  {
    assert Located(rows, s);
    var next := samples + [s];
    assert next[..2 * |rows|] == samples[..2 * |rows|];
    hide Edges, Sum, Located;
    var now := hits[..i + 1];
    forall k | 0 <= k < i + 1
        ensures next[2 * |rows| + k].row == now[k].row && next[2 * |rows| + k].kind == Hash(now[k].head) {
      if k < i { assert hits[..i][k] == now[k]; }
    }
  }

  lemma {:induction false} EdgeAt(rows: seq<int>, n: nat, k: nat)
    requires k < n <= |rows|
    ensures Edges(rows, n)[2 * k] == Sample(Boundary, Sum(rows, k), k, 0)
    ensures Edges(rows, n)[2 * k + 1] == Sample(Boundary, Sum(rows, k + 1) - 1, k, rows[k] - 1)
  {
    if k < n - 1 { EdgeAt(rows, n - 1, k); }
  }

  lemma {:induction false} EdgesLocated(rows: seq<int>, n: nat)
    requires Positive(rows) && n <= |rows|
    ensures forall i :: 0 <= i < 2 * n ==> Located(rows, Edges(rows, n)[i]) && Edges(rows, n)[i].kind == Boundary
  {
    forall i | 0 <= i < 2 * n ensures Located(rows, Edges(rows, n)[i]) && Edges(rows, n)[i].kind == Boundary {
      EdgeAt(rows, n, i / 2);
    }
  }

  // ----- Report and validator -----

  const SHARDS := 128
  const HASH_SAMPLES := 8
  const EIGHT_BIT := {"F8_E4M3", "F8_E4M3FN", "F8_E5M2"}

  /** A row as it was read: the digest of its values, and their form. */
  datatype Summary = Summary(digest: string, shape: seq<nat>, dtype: string, numel: nat)

  predicate IsDigest(s: string) {
    |s| == 64 && forall i :: 0 <= i < |s| ==> '0' <= s[i] <= '9' || 'a' <= s[i] <= 'f'
  }

  /** A sample as the report records it, with the row from the checkpoint and from the bank. */
  datatype Record = Record(sample: Sample, tensor: string, truth: Summary, observed: Summary, matches: bool)

  /** How the bank was read. */
  datatype Io = Io(mapped: int, storage: int, submitted: int, decoded: int)

  predicate IsNative(io: Io, rows: nat) {
    io.mapped == 0 && 0 < io.storage && 0 < io.submitted && rows <= io.decoded
  }

  datatype Report = Report(
    release: bool, tensors: seq<Tensor>, records: seq<Record>,
    shardCount: nat, sampleCount: nat, uniqueRows: nat, hashSamples: nat, io: Io)

  function Samples(records: seq<Record>): (r: seq<Sample>)
    ensures |r| == |records| && forall i :: 0 <= i < |r| ==> r[i] == records[i].sample
  {
    seq(|records|, i requires 0 <= i < |records| => records[i].sample)
  }

  function RowsOf(records: seq<Sample>): (r: set<int>)
    ensures forall x :: x in r <==> exists i :: 0 <= i < |records| && records[i].row == x
  {
    set i | 0 <= i < |records| :: records[i].row
  }

  function HeadsOf(records: seq<Sample>): set<nat> {
    set i | 0 <= i < |records| && records[i].kind.Hash? :: records[i].kind.head
  }

  function HashCount(records: seq<Sample>): (n: nat) {
    if records == [] then 0 else
      HashCount(records[..|records| - 1]) + if records[|records| - 1].kind.Hash? then 1 else 0
  }

  function RecordsOf(tensors: seq<Tensor>, samples: seq<Sample>, truth: int -> Summary): (r: seq<Record>)
    requires forall i :: 0 <= i < |samples| ==> samples[i].shard < |tensors|
    ensures |r| == |samples|
    ensures forall i :: 0 <= i < |r| ==>
        r[i] == Record(samples[i], tensors[samples[i].shard].name, truth(samples[i].row), truth(samples[i].row), true)
  {
    seq(|samples|, i requires 0 <= i < |samples| =>
      Record(samples[i], tensors[samples[i].shard].name, truth(samples[i].row), truth(samples[i].row), true))
  }

  function ReportOf(release: bool, tensors: seq<Tensor>, samples: seq<Sample>, truth: int -> Summary, io: Io): Report
    requires forall i :: 0 <= i < |samples| ==> samples[i].shard < |tensors|
  {
    Report(release, tensors, RecordsOf(tensors, samples, truth), |tensors|, |samples|, |RowsOf(samples)|,
        HashCount(samples), io)
  }

  /** The bank returned, for each sample, the row that the checkpoint has. */
  ghost predicate Parity(samples: seq<Sample>, truth: int -> Summary, observed: seq<Summary>) {
    |observed| == |samples| && forall i :: 0 <= i < |samples| ==> observed[i] == truth(samples[i].row)
  }

  /** The probe from its samples on: it reports only in parity, and in release mode only eight-bit shards
      that were read natively. */
  method Probe(release: bool, tensors: seq<Tensor>, samples: seq<Sample>, truth: int -> Summary,
      observed: seq<Summary>, io: Io) returns (r: Option<Report>)
    requires tensors != [] && forall i :: 0 <= i < |samples| ==> samples[i].shard < |tensors|
    ensures r.Some? <==>
        Parity(samples, truth, observed) &&
        (release ==> tensors[0].dtype in {"F8_E4M3", "F8_E4M3FN", "F8_E5M2"} && IsNative(io, |RowsOf(samples)|))
    ensures r.Some? ==> r.value == ReportOf(release, tensors, samples, truth, io)
  {
    if release && tensors[0].dtype !in EIGHT_BIT { return None; }
    if |observed| != |samples| { return None; }
    var records, mismatches, hashes := Compare(tensors, samples, truth, observed);
    if mismatches != 0 { return None; }
    var unique := |RowsOf(samples)|;
    if release && !IsNative(io, unique) { return None; }
    r := Some(Report(release, tensors, records, |tensors|, |samples|, unique, hashes, io));
  }

  /** Both readings of every sampled row, and how many differ. */
  method Compare(tensors: seq<Tensor>, samples: seq<Sample>, truth: int -> Summary, observed: seq<Summary>)
      returns (records: seq<Record>, mismatches: nat, hashes: nat)
    requires |observed| == |samples| && forall i :: 0 <= i < |samples| ==> samples[i].shard < |tensors|
    ensures mismatches == 0 <==> Parity(samples, truth, observed)
    ensures mismatches == 0 ==> records == RecordsOf(tensors, samples, truth)
    ensures hashes == HashCount(samples)
  {
    records, mismatches, hashes := [], 0, 0;
    NothingCompared(tensors, samples, truth, observed);
    hide *;
    var i := 0;
    while i < |samples|
      invariant i <= |samples| && Compared(tensors, samples, truth, observed, i, records, mismatches, hashes)
    {
      CompareNext(tensors, samples, truth, observed, i, records, mismatches, hashes);
      var s := samples[i];
      var same := observed[i] == truth(s.row);
      records := records + [Record(s, tensors[s.shard].name, truth(s.row), observed[i], same)];
      mismatches := if same then mismatches else mismatches + 1;
      hashes := if s.kind.Hash? then hashes + 1 else hashes;
      i := i + 1;
    }
    AllCompared(tensors, samples, truth, observed, records, mismatches, hashes);
  }

  /** Where the loop stands after `n` samples. */
  ghost predicate Compared(tensors: seq<Tensor>, samples: seq<Sample>, truth: int -> Summary, observed: seq<Summary>,
        n: nat, records: seq<Record>, mismatches: nat, hashes: nat)
  {
    && |observed| == |samples| && n <= |samples| && (forall i :: 0 <= i < |samples| ==> samples[i].shard < |tensors|)
    && (mismatches == 0 <==> Parity(samples[..n], truth, observed[..n]))
    && (mismatches == 0 ==> records == RecordsOf(tensors, samples[..n], truth))
    && hashes == HashCount(samples[..n])
  }

  lemma {:induction false} NothingCompared(tensors: seq<Tensor>, samples: seq<Sample>, truth: int -> Summary,
        observed: seq<Summary>)
    requires |observed| == |samples| && forall i :: 0 <= i < |samples| ==> samples[i].shard < |tensors|
    ensures Compared(tensors, samples, truth, observed, 0, [], 0, 0)
  {
  }

  lemma {:induction false} CompareNext(tensors: seq<Tensor>, samples: seq<Sample>, truth: int -> Summary,
        observed: seq<Summary>, n: nat, records: seq<Record>, mismatches: nat, hashes: nat)
    requires Compared(tensors, samples, truth, observed, n, records, mismatches, hashes) && n < |samples|
    ensures samples[n].shard < |tensors| && |observed| == |samples|
    ensures var s := samples[n]; var same := observed[n] == truth(s.row);
            Compared(tensors, samples, truth, observed, n + 1,
                records + [Record(s, tensors[s.shard].name, truth(s.row), observed[n], same)],
                if same then mismatches else mismatches + 1, if s.kind.Hash? then hashes + 1 else hashes)
  {
    var s := samples[n];
    assert samples[..n + 1] == samples[..n] + [s] && observed[..n + 1] == observed[..n] + [observed[n]];
    HashNext(samples[..n], s);
    hide HashCount;
    ParityNext(samples[..n], truth, observed[..n], s, observed[n]);
    RecordsNext(tensors, samples[..n], truth, s);
    hide Parity, RecordsOf;
  }

  lemma {:induction false} HashNext(samples: seq<Sample>, s: Sample)
    ensures HashCount(samples + [s]) == if s.kind.Hash? then HashCount(samples) + 1 else HashCount(samples)
  {
    assert (samples + [s])[..|samples|] == samples;
  }

  lemma {:induction false} ParityNext(samples: seq<Sample>, truth: int -> Summary, observed: seq<Summary>, s: Sample,
        o: Summary)
    requires |observed| == |samples|
    ensures Parity(samples + [s], truth, observed + [o]) <==> Parity(samples, truth, observed) && o == truth(s.row)
  {
    var all, seen := samples + [s], observed + [o];
    assert all[|samples|] == s && seen[|samples|] == o;
    if Parity(all, truth, seen) {
      forall i | 0 <= i < |samples| ensures observed[i] == truth(samples[i].row) {
        assert seen[i] == truth(all[i].row);
      }
    }
  }

  lemma {:induction false} RecordsNext(tensors: seq<Tensor>, samples: seq<Sample>, truth: int -> Summary, s: Sample)
    requires s.shard < |tensors| && forall i :: 0 <= i < |samples| ==> samples[i].shard < |tensors|
    ensures RecordsOf(tensors, samples + [s], truth) ==
        RecordsOf(tensors, samples, truth) +
        [Record(s, tensors[s.shard].name, truth(s.row), truth(s.row), true)]
  {
  }

  lemma {:induction false} AllCompared(tensors: seq<Tensor>, samples: seq<Sample>, truth: int -> Summary,
        observed: seq<Summary>, records: seq<Record>, mismatches: nat, hashes: nat)
    requires Compared(tensors, samples, truth, observed, |samples|, records, mismatches, hashes)
    ensures mismatches == 0 <==> Parity(samples, truth, observed)
    ensures mismatches == 0 ==> records == RecordsOf(tensors, samples, truth)
    ensures hashes == HashCount(samples)
  {
    assert samples[..|samples|] == samples && observed[..|samples|] == observed;
    hide Parity, RecordsOf, HashCount;
  }

  ghost predicate EndToEnd(shards: seq<Shard>) {
    exists rows: seq<int> :: Positive(rows) && shards == Layout(rows)
  }

  ghost predicate EdgesSeen(shards: seq<Shard>, observed: set<int>) {
    forall k :: 0 <= k < |shards| ==> shards[k].start in observed && shards[k].end - 1 in observed
  }

  /** The name says which shard the tensor is, and the type is an eight-bit float. */
  ghost predicate WellNamed(t: Tensor, k: nat) {
    Contains(t.name, ShardPart(k)) && IsEightBit(t.dtype)
  }

  predicate IsEightBit(dtype: string) { |dtype| >= 3 && dtype[..3] == "F8_" }

  ghost predicate AllNamed(tensors: seq<Tensor>) {
    forall k :: 0 <= k < |tensors| ==> WellNamed(tensors[k], k)
  }

  /** Each record names a shard, and the tensor of that shard, and has the same row twice. */
  ghost predicate Inside(records: seq<Record>, tensors: seq<Tensor>) {
    forall i :: 0 <= i < |records| ==> RecordInside(records[i], tensors)
  }

  predicate RecordInside(x: Record, tensors: seq<Tensor>) {
    && x.sample.shard < |tensors| && x.tensor == tensors[x.sample.shard].name && 0 <= x.sample.row
    && x.matches && IsDigest(x.truth.digest) && x.truth == x.observed
  }

  /** What the validator accepts. */
  ghost predicate Accepted(r: Report) {
    && r.release
    && |r.tensors| == SHARDS && r.shardCount == SHARDS && EndToEnd(Spans(r.tensors)) && AllNamed(r.tensors)
    && r.records != [] && r.sampleCount == |r.records| && r.hashSamples == HASH_SAMPLES
    && Inside(r.records, r.tensors) && EdgesSeen(Spans(r.tensors), RowsOf(Samples(r.records)))
    && HashCount(Samples(r.records)) == HASH_SAMPLES && 2 <= |HeadsOf(Samples(r.records))|
    && r.uniqueRows == |RowsOf(Samples(r.records))| && IsNative(r.io, r.uniqueRows)
  }

  /** The shards lie end to end and all have rows. */
  method CheckShards(shards: seq<Shard>) returns (ok: bool, edges: set<int>)
    ensures ok <==> EndToEnd(shards)
    ensures ok ==> forall x :: x in edges <==>
        exists k :: 0 <= k < |shards| && (shards[k].start == x || shards[k].end - 1 == x)
  {
    edges := {};
    var previous := 0;
    ghost var rows: seq<int> := [];
    hide Layout, Sum, Positive;
    NoShards(shards);
    for k := 0 to |shards|
      invariant LaidOut(shards, k, rows, previous)
      invariant forall x :: x in edges <==> exists i :: 0 <= i < k && (shards[i].start == x || shards[i].end - 1 == x)
    {
      var s := shards[k];
      NextShard(shards, k, rows, previous);
      if s.index != k || s.rows <= 0 || s.start != previous || s.end != s.start + s.rows { return false, edges; }
      rows := rows + [s.rows];
      edges := edges + {s.start, s.end - 1};
      previous := s.end;
    }
    assert shards[..|shards|] == shards;
    return true, edges;
  }

  /** The first `k` shards are the layout of `rows`, which ends at `end`. */
  ghost predicate LaidOut(shards: seq<Shard>, k: nat, rows: seq<int>, end: int) {
    k == |rows| <= |shards| && Positive(rows) && shards[..k] == Layout(rows) && end == Sum(rows, k)
  }

  lemma {:induction false} NoShards(shards: seq<Shard>)
    ensures LaidOut(shards, 0, [], 0)
  {
  }

  lemma {:induction false} NextShard(shards: seq<Shard>, k: nat, rows: seq<int>, end: int)
    requires k < |shards| && LaidOut(shards, k, rows, end)
    ensures var s := shards[k];
            if s.index == k && 0 < s.rows && s.start == end && s.end == s.start + s.rows
            then LaidOut(shards, k + 1, rows + [s.rows], s.end)
            else !EndToEnd(shards)
  {
    var s := shards[k];
    if s.index == k && 0 < s.rows && s.start == end && s.end == s.start + s.rows {
      LayoutGrows(rows, s.rows);
      assert shards[..k + 1] == shards[..k] + [s];
    } else {
      NoLayout(shards, k, rows);
    }
  }

  lemma {:induction false} LayoutGrows(rows: seq<int>, next: int)
    ensures Layout(rows + [next]) == Layout(rows) + [Shard(|rows|, next, Sum(rows, |rows|), Sum(rows, |rows|) + next)]
    ensures Sum(rows + [next], |rows| + 1) == Sum(rows, |rows|) + next
  {
    var all := rows + [next];
    assert all[..|rows|] == rows;
    forall k | 0 <= k <= |rows| ensures Sum(all, k) == Sum(rows, k) { SumPrefix(all, |rows|, k); }
  }

  lemma {:induction false} NoLayout(shards: seq<Shard>, k: nat, rows: seq<int>)
    requires k < |shards| && |rows| == k && shards[..k] == Layout(rows)
    requires var s := shards[k]; s.index != k || s.rows <= 0 || s.start != Sum(rows, k) || s.end != s.start + s.rows
    ensures forall all: seq<int> :: shards == Layout(all) ==> !Positive(all)
  {
    forall all: seq<int> | shards == Layout(all) ensures !Positive(all) {
      LayoutPrefix(all, k, rows);
      assert shards[k] == Layout(all)[k];
      assert Sum(all, k + 1) == Sum(all, k) + all[k];
    }
  }

  lemma {:induction false} LayoutPrefix(all: seq<int>, k: nat, rows: seq<int>)
    requires k <= |all| && Layout(all)[..k] == Layout(rows)
    ensures all[..k] == rows && Sum(all, k) == Sum(rows, k)
  {
    assert |Layout(rows)| == k;
    forall i | 0 <= i < k ensures all[i] == rows[i] {
      assert Layout(all)[..k][i] == Layout(all)[i];
      assert Layout(rows)[i].rows == rows[i];
    }
    assert all[..k] == rows;
    SumPrefix(all, k, k);
  }

  /** Checks a report from its own numbers. */
  method Validate(r: Report) returns (ok: bool)
    ensures ok <==> Accepted(r)
  {
    if !r.release || |r.tensors| != SHARDS || r.records == [] { return false; }
    var laid, edges := CheckShards(Spans(r.tensors));
    if !laid { return false; }
    var named := CheckNames(r.tensors);
    if !named { return false; }
    if r.shardCount != SHARDS || r.sampleCount != |r.records| || r.hashSamples != HASH_SAMPLES { return false; }
    var inside, observed, hashes, heads := Scan(r.records, r.tensors);
    if !inside { return false; }
    EdgesIn(Spans(r.tensors), edges, observed);
    return edges <= observed && hashes == HASH_SAMPLES && |heads| >= 2 && r.uniqueRows == |observed| &&
      IsNative(r.io, |observed|);
  }

  method CheckNames(tensors: seq<Tensor>) returns (ok: bool)
    ensures ok <==> AllNamed(tensors)
  {
    hide WellNamed;
    for k := 0 to |tensors|
      invariant forall i :: 0 <= i < k ==> WellNamed(tensors[i], i)
    {
      var named := HasName(tensors[k], k);
      if !named { return false; }
    }
    ok := true;
  }

  method HasName(t: Tensor, k: nat) returns (ok: bool)
    ensures ok <==> WellNamed(t, k)
  {
    var part := ShardPart(k);
    hide ShardPart;
    var i := 0;
    while i + |part| <= |t.name|
      invariant forall j: nat :: j < i ==> !PartAt(t.name, part, j)
    {
      if t.name[i..i + |part|] == part {
        assert PartAt(t.name, part, i);
        return IsEightBit(t.dtype);
      }
      i := i + 1;
    }
    ok := false;
  }

  lemma {:induction false} EdgesIn(shards: seq<Shard>, edges: set<int>, observed: set<int>)
    requires forall x :: x in edges <==>
        exists k :: 0 <= k < |shards| && (shards[k].start == x || shards[k].end - 1 == x)
    ensures edges <= observed <==> EdgesSeen(shards, observed)
  {
    if edges <= observed {
      forall k | 0 <= k < |shards| ensures shards[k].start in observed && shards[k].end - 1 in observed {
        assert shards[k].start in edges && shards[k].end - 1 in edges;
      }
    }
    if forall k :: 0 <= k < |shards| ==> shards[k].start in observed && shards[k].end - 1 in observed {
      forall x | x in edges ensures x in observed {
        var k :| 0 <= k < |shards| && (shards[k].start == x || shards[k].end - 1 == x);
      }
    }
  }

  method Scan(records: seq<Record>, tensors: seq<Tensor>)
      returns (inside: bool, rows: set<int>, hashes: nat, heads: set<nat>)
    ensures inside <==> Inside(records, tensors)
    ensures inside ==> rows == RowsOf(Samples(records))
    ensures inside ==> hashes == HashCount(Samples(records)) && heads == HeadsOf(Samples(records))
  {
    rows, hashes, heads := {}, 0, {};
    ghost var all := Samples(records);
    NothingScanned(all);
    hide *;
    var i := 0;
    while i < |records|
      invariant i <= |records| && InsideTo(records, tensors, i) && Scanned(all, i, rows, hashes, heads)
    {
      InsideNext(records, tensors, i);
      ScanNext(records, i, rows, hashes, heads);
      var inTensors := RecordInside(records[i], tensors);
      if !inTensors { return false, rows, hashes, heads; }
      var s := records[i].sample;
      rows := rows + {s.row};
      if s.kind.Hash? {
        hashes := hashes + 1;
        heads := heads + {s.kind.head};
      }
      i := i + 1;
    }
    AllScanned(records, tensors, rows, hashes, heads);
    inside := true;
  }

  ghost predicate InsideTo(records: seq<Record>, tensors: seq<Tensor>, n: nat) {
    n <= |records| && Inside(records[..n], tensors)
  }

  /** What the first `n` samples amount to. */
  ghost predicate Scanned(all: seq<Sample>, n: nat, rows: set<int>, hashes: nat, heads: set<nat>) {
    n <= |all| && rows == RowsOf(all[..n]) && hashes == HashCount(all[..n]) && heads == HeadsOf(all[..n])
  }

  lemma {:induction false} NothingScanned(all: seq<Sample>)
    ensures Scanned(all, 0, {}, 0, {})
    ensures forall records, tensors :: InsideTo(records, tensors, 0)
  {
  }

  lemma {:induction false} InsideNext(records: seq<Record>, tensors: seq<Tensor>, n: nat)
    requires n < |records| && InsideTo(records, tensors, n)
    ensures RecordInside(records[n], tensors) ==> InsideTo(records, tensors, n + 1)
    ensures !RecordInside(records[n], tensors) ==> !Inside(records, tensors)
  {
    hide RecordInside;
    var now := records[..n + 1];
    forall i | 0 <= i < n ensures RecordInside(now[i], tensors) { assert records[..n][i] == now[i]; }
  }

  lemma {:induction false} ScanNext(records: seq<Record>, n: nat, rows: set<int>, hashes: nat, heads: set<nat>)
    requires n < |records| && Scanned(Samples(records), n, rows, hashes, heads)
    ensures var s := records[n].sample;
            Scanned(Samples(records), n + 1, rows + {s.row}, if s.kind.Hash? then hashes + 1 else hashes,
                if s.kind.Hash? then heads + {s.kind.head} else heads)
  {
    var all := Samples(records);
    ScanStep(all[..n], all[n]);
    assert all[..n + 1] == all[..n] + [all[n]];
    hide RowsOf, HashCount, HeadsOf;
  }

  lemma {:induction false} AllScanned(records: seq<Record>, tensors: seq<Tensor>, rows: set<int>, hashes: nat,
        heads: set<nat>)
    requires InsideTo(records, tensors, |records|) && Scanned(Samples(records), |records|, rows, hashes, heads)
    ensures Inside(records, tensors)
    ensures rows == RowsOf(Samples(records)) && hashes == HashCount(Samples(records)) &&
        heads == HeadsOf(Samples(records))
  {
    hide RecordInside, RowsOf, HashCount, HeadsOf;
    assert records[..|records|] == records && Samples(records)[..|records|] == Samples(records);
  }

  lemma {:induction false} ScanStep(records: seq<Sample>, s: Sample)
    ensures RowsOf(records + [s]) == RowsOf(records) + {s.row}
    ensures HeadsOf(records + [s]) == HeadsOf(records) + if s.kind.Hash? then {s.kind.head} else {}
    ensures HashCount(records + [s]) == HashCount(records) + if s.kind.Hash? then 1 else 0
  {
    var all := records + [s];
    assert all[..|records|] == records;
    forall x | x in RowsOf(records) ensures x in RowsOf(all) {
      var i :| 0 <= i < |records| && records[i].row == x;
      assert all[i].row == x;
    }
    assert all[|records|] == s;
    forall x | x in HeadsOf(records) ensures x in HeadsOf(all) {
      var i :| 0 <= i < |records| && records[i].kind.Hash? && records[i].kind.head == x;
      assert all[i] == records[i];
    }
  }

  // ----- What acceptance means -----

  /** A shard's part of the name has its number in decimal, so different shards have different names. */
  lemma {:induction false} PartIsNumber(k: nat)
    ensures var part := ShardPart(k);
      && 14 < |part| && part[..7] == ".shard_" && part[|part| - 7..] == ".weight"
      && AllDigits(part[7..|part| - 7]) && Value(part[7..|part| - 7]) == k
  {
    DecimalValue(k);
    assert ShardPart(k)[7..|ShardPart(k)| - 7] == Decimal(k);
  }

  lemma {:induction false} NamesDiffer(base: string, i: nat, j: nat)
    ensures base + ShardPart(i) == base + ShardPart(j) <==> i == j
  {
    if base + ShardPart(i) == base + ShardPart(j) {
      assert ShardPart(i) == (base + ShardPart(i))[|base|..] == ShardPart(j);
      PartIsNumber(i);
      PartIsNumber(j);
    }
  }

  /** The shards of an accepted report: 128, end to end, each with rows, named by its number, eight-bit. */
  lemma {:induction false} AcceptedShards(r: Report, k: nat)
    requires Accepted(r) && k < 128
    ensures r.release && |r.tensors| == 128 && r.shardCount == 128
    ensures var t := r.tensors[k];
      && t.span.index == k && 0 < t.span.rows && t.span.end == t.span.start + t.span.rows
      && t.span.start == (if k == 0 then 0 else r.tensors[k - 1].span.end)
      && (exists i :: 0 <= i <= |t.name| && ShardPart(k) <= t.name[i..])
      && "F8_" <= t.dtype
  {
    assert WellNamed(r.tensors[k], k);
    ContainsIff(r.tensors[k].name, ShardPart(k));
    hide *;
    LaidAt(r.tensors, k);
  }

  lemma {:induction false} LaidAt(tensors: seq<Tensor>, k: nat)
    requires k < |tensors| && EndToEnd(Spans(tensors))
    ensures var span := tensors[k].span;
      && span.index == k && 0 < span.rows && span.end == span.start + span.rows
      && span.start == (if k == 0 then 0 else tensors[k - 1].span.end)
  {
    var spans := Spans(tensors);
    assert spans[k] == tensors[k].span && (0 < k ==> spans[k - 1] == tensors[k - 1].span);
    hide Spans;
    var rows: seq<int> :| Positive(rows) && spans == Layout(rows);
    assert Layout(rows)[k] == Shard(k, rows[k], Sum(rows, k), Sum(rows, k + 1));
    assert 0 < k ==> Layout(rows)[k - 1].end == Sum(rows, k);
  }

  lemma {:induction false} ContainsIff(s: string, part: string)
    ensures Contains(s, part) <==> exists i :: 0 <= i <= |s| && part <= s[i..]
  {
    if Contains(s, part) {
      var i: nat :| PartAt(s, part, i);
      assert s[i..][..|part|] == part;
    }
    if i :| 0 <= i <= |s| && part <= s[i..] {
      assert s[i..i + |part|] == s[i..][..|part|];
      assert PartAt(s, part, i);
    }
  }

  /** Each record of it names a shard and that shard's tensor, and has one digest from both readings. */
  lemma {:induction false} AcceptedRecord(r: Report, i: nat)
    requires Accepted(r) && i < |r.records|
    ensures var x := r.records[i];
      && x.sample.shard < 128 && x.tensor == r.tensors[x.sample.shard].name && 0 <= x.sample.row
      && x.matches && x.truth == x.observed && |x.truth.digest| == 64
      && forall c :: c in x.truth.digest ==> '0' <= c <= '9' || 'a' <= c <= 'f'
  {
    assert RecordInside(r.records[i], r.tensors);
  }

  /** Its records sample both ends of every shard. */
  lemma {:induction false} AcceptedEdges(r: Report, k: nat)
    requires Accepted(r) && k < 128
    ensures exists i :: 0 <= i < |r.records| && r.records[i].sample.row == r.tensors[k].span.start
    ensures exists i :: 0 <= i < |r.records| && r.records[i].sample.row == r.tensors[k].span.end - 1
  {
    var t := Spans(r.tensors)[k];
    assert t == r.tensors[k].span;
    hide EndToEnd, AllNamed, Inside, RowsOf, HeadsOf, HashCount, Samples, Spans;
    RowIn(r.records, t.start);
    RowIn(r.records, t.end - 1);
  }

  /** They have eight rows of the hasher, by two heads or more; the counts are those of the records, and the
      rows were read natively. */
  lemma {:induction false} AcceptedCoverage(r: Report)
    requires Accepted(r)
    ensures |set i | 0 <= i < |r.records| && r.records[i].sample.kind.Hash?| == 8 && r.hashSamples == 8
    ensures exists i, j :: (
      && 0 <= i < |r.records| && 0 <= j < |r.records| && r.records[i].sample.kind.Hash?
      && r.records[j].sample.kind.Hash? && r.records[i].sample.kind.head != r.records[j].sample.kind.head)
    ensures r.records != [] && r.sampleCount == |r.records|
    ensures r.uniqueRows == |set i | 0 <= i < |r.records| :: r.records[i].sample.row|
    ensures r.io.mapped == 0 && 0 < r.io.storage && 0 < r.io.submitted && r.uniqueRows <= r.io.decoded
  {
    CountIsSet(r.records);
    HeadsDiffer(r.records);
    RowsAre(r.records);
    hide EndToEnd, AllNamed, Inside, EdgesSeen, RowsOf, HeadsOf, HashCount, Samples, Spans;
  }

  lemma {:induction false} RowIn(records: seq<Record>, row: int)
    requires row in RowsOf(Samples(records))
    ensures exists i :: 0 <= i < |records| && records[i].sample.row == row
  {
    var i :| 0 <= i < |records| && Samples(records)[i].row == row;
    assert records[i].sample.row == row;
  }

  lemma {:induction false} CountIsSet(records: seq<Record>)
    ensures |set i | 0 <= i < |records| && records[i].sample.kind.Hash?| == HashCount(Samples(records))
  {
    if records != [] {
      var n := |records| - 1;
      var front := records[..n];
      CountIsSet(front);
      assert Samples(records)[..n] == Samples(front);
      assert (set i | 0 <= i < |records| && records[i].sample.kind.Hash?) ==
        (set i | 0 <= i < |front| && front[i].sample.kind.Hash?) + if records[n].sample.kind.Hash? then {n} else {};
    }
  }

  lemma {:induction false} HeadsDiffer(records: seq<Record>)
    ensures 2 <= |HeadsOf(Samples(records))| ==> exists i, j :: (
      && 0 <= i < |records| && 0 <= j < |records| && records[i].sample.kind.Hash?
      && records[j].sample.kind.Hash? && records[i].sample.kind.head != records[j].sample.kind.head)
  {
    var heads := HeadsOf(Samples(records));
    if 2 <= |heads| {
      var a :| a in heads;
      assert |heads - {a}| >= 1;
      var b :| b in heads - {a};
      var i :| 0 <= i < |records| && records[i].sample.kind.Hash? && records[i].sample.kind.head == a;
      var j :| 0 <= j < |records| && records[j].sample.kind.Hash? && records[j].sample.kind.head == b;
    }
  }

  lemma {:induction false} RowsAre(records: seq<Record>)
    ensures RowsOf(Samples(records)) == set i | 0 <= i < |records| :: records[i].sample.row
  {
  }

  /** Shard `k` follows the one before it, with rows. */
  predicate Linked(tensors: seq<Tensor>, k: nat)
    requires k < |tensors|
  {
    && tensors[k].span.index == k && 0 < tensors[k].span.rows
    && tensors[k].span.end == tensors[k].span.start + tensors[k].span.rows
    && tensors[k].span.start == if k == 0 then 0 else tensors[k - 1].span.end
  }

  predicate RowSeen(records: seq<Record>, row: int) {
    exists i :: 0 <= i < |records| && records[i].sample.row == row
  }

  /** And a report of which all that holds is accepted. */
  lemma {:induction false} AcceptedWhen(r: Report)
    requires r.release && |r.tensors| == 128 && r.shardCount == 128
    requires forall k: nat :: k < 128 ==> Linked(r.tensors, k)
    requires forall k :: 0 <= k < 128 ==> "F8_" <= r.tensors[k].dtype && Contains(r.tensors[k].name, ShardPart(k))
    requires forall i :: 0 <= i < |r.records| ==>
      var x := r.records[i];
      && x.sample.shard < 128 && x.tensor == r.tensors[x.sample.shard].name && 0 <= x.sample.row
      && x.matches && x.truth == x.observed && |x.truth.digest| == 64
      && forall c :: c in x.truth.digest ==> '0' <= c <= '9' || 'a' <= c <= 'f'
    requires forall k :: 0 <= k < 128 ==>
        RowSeen(r.records, r.tensors[k].span.start) && RowSeen(r.records, r.tensors[k].span.end - 1)
    requires |set i | 0 <= i < |r.records| && r.records[i].sample.kind.Hash?| == 8 && r.hashSamples == 8
    requires exists i, j :: (
      && 0 <= i < |r.records| && 0 <= j < |r.records| && r.records[i].sample.kind.Hash?
      && r.records[j].sample.kind.Hash? && r.records[i].sample.kind.head != r.records[j].sample.kind.head)
    requires r.sampleCount == |r.records|
    requires r.uniqueRows == |set i | 0 <= i < |r.records| :: r.records[i].sample.row|
    requires r.io.mapped == 0 && 0 < r.io.storage && 0 < r.io.submitted && r.uniqueRows <= r.io.decoded
    ensures Accepted(r)
  {
    hide WellNamed, RowsOf, HeadsOf, HashCount, Samples, Inside, EndToEnd, ShardPart, Spans, EdgesSeen, Contains;
    hide Linked, RowSeen, AllNamed;
    LaidWhen(r.tensors);
    NamedWhen(r.tensors);
    EdgesWhen(r.tensors, r.records);
    InsideWhen(r.records, r.tensors);
    CountIsSet(r.records);
    HeadsWhen(r.records);
    RowsAre(r.records);
  }

  lemma {:induction false} LaidWhen(tensors: seq<Tensor>)
    requires forall k: nat :: k < |tensors| ==> Linked(tensors, k)
    ensures EndToEnd(Spans(tensors))
  {
    var rows := seq(|tensors|, k requires 0 <= k < |tensors| => tensors[k].span.rows);
    forall k: nat | k < |tensors| ensures tensors[k].span == Layout(rows)[k] && 0 < rows[k] {
      LaidFrom(tensors, rows, k);
      assert Linked(tensors, k);
    }
    assert Spans(tensors) == Layout(rows);
    assert Positive(rows);
  }

  lemma {:induction false} LaidFrom(tensors: seq<Tensor>, rows: seq<int>, k: nat)
    requires |rows| == |tensors| && k < |tensors| && forall i :: 0 <= i < |rows| ==> rows[i] == tensors[i].span.rows
    requires forall k: nat :: k < |tensors| ==> Linked(tensors, k)
    ensures tensors[k].span.start == Sum(rows, k) && tensors[k].span.end == Sum(rows, k + 1)
  {
    assert Linked(tensors, k);
    if k > 0 {
      LaidFrom(tensors, rows, k - 1);
    } else {
      assert Sum(rows, 0) == 0;
    }
  }

  lemma {:induction false} NamedWhen(tensors: seq<Tensor>)
    requires forall k :: 0 <= k < |tensors| ==> "F8_" <= tensors[k].dtype && Contains(tensors[k].name, ShardPart(k))
    ensures AllNamed(tensors)
  {
    hide Contains, ShardPart;
  }

  lemma {:induction false} EdgesWhen(tensors: seq<Tensor>, records: seq<Record>)
    requires forall k :: 0 <= k < |tensors| ==>
        RowSeen(records, tensors[k].span.start) && RowSeen(records, tensors[k].span.end - 1)
    ensures EdgesSeen(Spans(tensors), RowsOf(Samples(records)))
  {
    var all := Samples(records);
    forall row | RowSeen(records, row) ensures row in RowsOf(all) {
      var i :| 0 <= i < |records| && records[i].sample.row == row;
      assert all[i].row == row;
    }
    hide RowSeen, RowsOf, Samples;
  }

  lemma {:induction false} InsideWhen(records: seq<Record>, tensors: seq<Tensor>)
    requires forall i :: 0 <= i < |records| ==>
      var x := records[i];
      && x.sample.shard < |tensors| && x.tensor == tensors[x.sample.shard].name && 0 <= x.sample.row
      && x.matches && x.truth == x.observed && |x.truth.digest| == 64
      && forall c :: c in x.truth.digest ==> '0' <= c <= '9' || 'a' <= c <= 'f'
    ensures Inside(records, tensors)
  {
    forall i | 0 <= i < |records| ensures IsDigest(records[i].truth.digest) {
      var s := records[i].truth.digest;
      assert forall k :: 0 <= k < |s| ==> s[k] in s;
    }
    hide IsDigest;
  }

  lemma {:induction false} HeadsWhen(records: seq<Record>)
    requires exists i, j :: (
      && 0 <= i < |records| && 0 <= j < |records| && records[i].sample.kind.Hash?
      && records[j].sample.kind.Hash? && records[i].sample.kind.head != records[j].sample.kind.head)
    ensures 2 <= |HeadsOf(Samples(records))|
  {
    var i, j :| 0 <= i < |records| && 0 <= j < |records| && records[i].sample.kind.Hash?
      && records[j].sample.kind.Hash? && records[i].sample.kind.head != records[j].sample.kind.head;
    var all := Samples(records);
    assert all[i].kind.Hash? && all[j].kind.Hash?;
    assert all[i].kind.head in HeadsOf(all) && all[j].kind.head in HeadsOf(all);
    TwoIn(HeadsOf(all), all[i].kind.head, all[j].kind.head);
  }

  // ----- Probe and validator agree -----

  lemma {:induction false} CountHashes(records: seq<Sample>, n: nat)
    requires n <= |records|
    requires forall i :: 0 <= i < |records| ==> (records[i].kind.Hash? <==> n <= i)
    ensures HashCount(records) == |records| - n
  {
    var m := |records|;
    if m > n {
      CountHashes(records[..m - 1], n);
    } else if m > 0 {
      CountHashes(records[..m - 1], n - 1);
    }
  }

  lemma {:induction false} TwoIn(s: set<nat>, a: nat, b: nat)
    ensures a in s && b in s && a != b ==> 2 <= |s|
  {
    if a in s && b in s && a != b {
      assert |s - {a} - {b}| == |s| - 2;
    }
  }

  /** Every shard's first and last row are among the samples. */
  lemma {:induction false} SamplesCover(rows: seq<int>, hits: seq<Hit>, samples: seq<Sample>, k: nat)
    requires IsSampled(rows, hits, samples) && k < |rows|
    ensures Layout(rows)[k].start in RowsOf(samples) && Layout(rows)[k].end - 1 in RowsOf(samples)
  {
    var n := |rows|;
    EdgeAt(rows, n, k);
    assert samples[2 * k] == samples[..2 * n][2 * k] && samples[2 * k + 1] == samples[..2 * n][2 * k + 1];
  }

  lemma {:induction false} SamplesCount(rows: seq<int>, hits: seq<Hit>, split: nat, samples: seq<Sample>)
    requires Positive(rows) && BothHeads(hits, split) && IsSampled(rows, hits, samples)
    ensures HashCount(samples) == |hits| && 2 <= |HeadsOf(samples)|
  {
    var n := |rows|;
    EdgesLocated(rows, n);
    forall i | 0 <= i < |samples| ensures samples[i].kind.Hash? <==> 2 * n <= i {
      if i < 2 * n {
        assert samples[i] == samples[..2 * n][i];
      } else {
        var m := i - 2 * n;
        assert samples[2 * n + m].kind == Hash(hits[m].head);
      }
    }
    CountHashes(samples, 2 * n);
    var i, j :| 0 <= i < |hits| && 0 <= j < |hits| && hits[i].head < split <= hits[j].head;
    assert samples[2 * n + i].kind.head == hits[i].head && samples[2 * n + j].kind.head == hits[j].head;
    TwoIn(HeadsOf(samples), hits[i].head, hits[j].head);
  }

  /** The samples of a probe address the bank's tensors. */
  lemma {:induction false} SampledInside(rows: seq<int>, hits: seq<Hit>, samples: seq<Sample>)
    requires IsSampled(rows, hits, samples)
    ensures forall i :: 0 <= i < |samples| ==> samples[i].shard < |rows|
  {
  }

  /** The report of a probe is accepted if and only if it ran in release mode and the bank has 128 shards. */
  lemma {:induction false} ProbeAcceptedIff(
      base: string, dtype: string, release: bool, rows: seq<int>, hits: seq<Hit>, split: nat, samples: seq<Sample>,
      truth: int -> Summary, io: Io)
    requires Positive(rows) && rows != [] && |hits| == HASH_SAMPLES && BothHeads(hits, split) &&
        IsSampled(rows, hits, samples)
    requires forall row :: IsDigest(truth(row).digest)
    requires release ==> dtype in EIGHT_BIT && IsNative(io, |RowsOf(samples)|)
    ensures forall i :: 0 <= i < |samples| ==> samples[i].shard < |Tensors(base, dtype, rows)|
    ensures Accepted(ReportOf(release, Tensors(base, dtype, rows), samples, truth, io)) <==> release && |rows| == SHARDS
  {
    hide RecordsOf, Spans, Edges, EndToEnd, EdgesSeen, Inside, AllNamed, RowsOf, HeadsOf, HashCount;
    hide Positive, IsSampled, BothHeads, Layout, Tensors, Samples, IsDigest, IsNative;
    SampledInside(rows, hits, samples);
    SamplesCount(rows, hits, split, samples);
    var tensors := Tensors(base, dtype, rows);
    TensorsCover(base, dtype, rows, hits, samples);
    if release { TensorsNamed(base, dtype, rows); }
    RecordsInside(base, dtype, rows, hits, samples, truth);
    RecordsAreSamples(tensors, samples, truth);
  }

  lemma {:induction false} RecordsAreSamples(tensors: seq<Tensor>, samples: seq<Sample>, truth: int -> Summary)
    requires forall i :: 0 <= i < |samples| ==> samples[i].shard < |tensors|
    ensures Samples(RecordsOf(tensors, samples, truth)) == samples
  {
  }

  lemma {:induction false} TensorsCover(base: string, dtype: string, rows: seq<int>, hits: seq<Hit>,
        samples: seq<Sample>)
    requires Positive(rows) && rows != [] && IsSampled(rows, hits, samples)
    ensures EndToEnd(Spans(Tensors(base, dtype, rows))) && EdgesSeen(Spans(Tensors(base, dtype, rows)), RowsOf(samples))
    ensures samples != []
  {
    EdgesAreSeen(rows, hits, samples);
    TensorSpans(base, dtype, rows);
    hide EdgesSeen, RowsOf, Positive, Layout, Tensors, Spans;
  }

  lemma {:induction false} TensorsNamed(base: string, dtype: string, rows: seq<int>)
    requires dtype in EIGHT_BIT
    ensures AllNamed(Tensors(base, dtype, rows))
  {
    hide ShardPart, Layout;
    forall k | 0 <= k < |rows| ensures WellNamed(Tensors(base, dtype, rows)[k], k) {
      var name := base + ShardPart(k);
      assert PartAt(name, ShardPart(k), |base|);
    }
  }

  lemma {:induction false} RecordsInside(base: string, dtype: string, rows: seq<int>, hits: seq<Hit>,
        samples: seq<Sample>, truth: int -> Summary)
    requires Positive(rows) && IsSampled(rows, hits, samples) && forall i :: 0 <= i < |samples| ==>
        samples[i].shard < |rows|
    requires forall row :: IsDigest(truth(row).digest)
    ensures Inside(RecordsOf(Tensors(base, dtype, rows), samples, truth), Tensors(base, dtype, rows))
  {
    forall i | 0 <= i < |samples| ensures 0 <= samples[i].row {
      LocatedInside(rows, samples[i]);
    }
    hide Located, Layout, Edges, ShardPart, IsDigest;
  }

  /** Every record of a probe's report names the shard its row lies in. */
  lemma {:induction false} ProbeOwns(base: string, dtype: string, rows: seq<int>, hits: seq<Hit>,
        samples: seq<Sample>, i: nat)
    requires Positive(rows) && IsSampled(rows, hits, samples) && i < |samples|
    ensures samples[i].shard < |rows| && Owns(Tensors(base, dtype, rows)[samples[i].shard], samples[i].row)
  {
    hide ShardPart;
    assert Located(rows, samples[i]);
  }

  predicate Owns(t: Tensor, row: int) { t.span.start <= row < t.span.end }

  lemma {:induction false} EdgesAreSeen(rows: seq<int>, hits: seq<Hit>, samples: seq<Sample>)
    requires IsSampled(rows, hits, samples)
    ensures EdgesSeen(Layout(rows), RowsOf(samples))
  {
    hide *;
    assert |Layout(rows)| == |rows|;
    forall k | 0 <= k < |rows|
        ensures Layout(rows)[k].start in RowsOf(samples) && Layout(rows)[k].end - 1 in RowsOf(samples) {
      SamplesCover(rows, hits, samples, k);
    }
    EdgesSeenBy(Layout(rows), RowsOf(samples));
  }

  lemma {:induction false} EdgesSeenBy(shards: seq<Shard>, observed: set<int>)
    requires forall k :: 0 <= k < |shards| ==> shards[k].start in observed && shards[k].end - 1 in observed
    ensures EdgesSeen(shards, observed)
  {
  }

  lemma {:induction false} LocatedInside(rows: seq<int>, s: Sample)
    requires Positive(rows) && Located(rows, s)
    ensures s.shard < |rows| && 0 <= s.row
  {
    SumGrows(rows, s.shard, |rows|);
  }

  /** The validator does not compare a record's shard with its row: with shard, tensor name and place
      replaced, a report stays accepted if and only if the name is still that shard's, whichever
      shard owns the row. */
  lemma {:induction false} OwnerUnchecked(r: Report, i: nat, shard: nat, name: string, local: int)
    requires i < |r.records|
    ensures var x := r.records[i].(sample := r.records[i].sample.(shard := shard, local := local), tensor := name);
            Accepted(r) ==>
              (Accepted(r.(records := r.records[i := x])) <==> shard < SHARDS && name == r.tensors[shard].name)
  {
    hide RowsOf, HeadsOf, HashCount, Samples, Inside, AllNamed, EndToEnd, EdgesSeen, Spans;
    if Accepted(r) {
      var x := r.records[i].(sample := r.records[i].sample.(shard := shard, local := local), tensor := name);
      SameCounts(r.records, i, x);
      InsideIff(r.records, i, x, r.tensors);
      RecordIsInside(r.records, i, r.tensors);
    }
  }

  lemma {:induction false} RecordIsInside(records: seq<Record>, i: nat, tensors: seq<Tensor>)
    requires Inside(records, tensors) && i < |records|
    ensures RecordInside(records[i], tensors)
  {
  }

  lemma {:induction false} SameCounts(records: seq<Record>, i: nat, x: Record)
    requires i < |records| && x.sample.row == records[i].sample.row && x.sample.kind == records[i].sample.kind
    ensures RowsOf(Samples(records[i := x])) == RowsOf(Samples(records))
    ensures HeadsOf(Samples(records[i := x])) == HeadsOf(Samples(records))
    ensures HashCount(Samples(records[i := x])) == HashCount(Samples(records))
  {
    assert Samples(records[i := x]) == Samples(records)[i := x.sample];
    SameScan(Samples(records), i, x.sample);
  }

  lemma {:induction false} InsideIff(records: seq<Record>, i: nat, x: Record, tensors: seq<Tensor>)
    requires Inside(records, tensors) && i < |records|
    ensures Inside(records[i := x], tensors) <==> RecordInside(x, tensors)
  {
    hide RecordInside;
    assert records[i := x][i] == x;
  }

  /** So a report can be accepted with a record that names a shard its row is not in. */
  lemma {:induction false} WrongOwnerAccepted(r: Report, i: nat) returns (shard: nat)
    requires i < |r.records|
    ensures shard < SHARDS
    ensures Accepted(r) ==> !Owns(r.tensors[shard], r.records[i].sample.row)
    ensures Accepted(r) ==>
      var x := r.records[i].(sample := r.records[i].sample.(shard := shard), tensor := r.tensors[shard].name);
      Accepted(r.(records := r.records[i := x]))
  {
    shard := 0;
    if Accepted(r) {
      var rows: seq<int> :| Positive(rows) && Spans(r.tensors) == Layout(rows);
      SumGrows(rows, 1, 1);
      assert Spans(r.tensors)[0] == r.tensors[0].span && Spans(r.tensors)[1] == r.tensors[1].span;
      shard := if Owns(r.tensors[0], r.records[i].sample.row) then 1 else 0;
      OwnerUnchecked(r, i, shard, r.tensors[shard].name, r.records[i].sample.local);
    }
  }

  lemma {:induction false} SameScan(records: seq<Sample>, i: nat, s: Sample)
    requires i < |records| && s.row == records[i].row && s.kind == records[i].kind
    ensures RowsOf(records[i := s]) == RowsOf(records) && HeadsOf(records[i := s]) == HeadsOf(records)
    ensures HashCount(records[i := s]) == HashCount(records)
  {
    var n := |records| - 1;
    var other := records[i := s];
    assert records == records[..n] + [records[n]] && other == other[..n] + [other[n]];
    ScanStep(records[..n], records[n]);
    ScanStep(other[..n], other[n]);
    if i < n {
      assert other[..n] == records[..n][i := s];
      SameScan(records[..n], i, s);
    } else {
      assert other[..n] == records[..n];
    }
  }
}
