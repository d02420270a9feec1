/** Reading ranges and whole tensors of a written checkpoint, whose files may have been truncated. */
module FtwLoad {
  import opened Basics
  import opened FtwFormat
  import opened FtwReader
  import opened FtwReadInto

  /** The files on disk: what was written, or a prefix of it. */
  ghost predicate MaybeTruncated(disk: seq<seq<Byte>>, files: seq<seq<Byte>>) {
    |disk| == |files| && forall i :: 0 <= i < |files| ==> disk[i] <= files[i]
  }

  /** Every shard file still reaches as far as the range needs it to. */
  ghost predicate Present(disk: seq<seq<Byte>>, shards: seq<Shard>, from: nat, to: nat) {
    forall i :: 0 <= i < |shards| && Max(from, shards[i].off) < Min(to, shards[i].End()) ==>
      i < |disk| && Min(to, shards[i].End()) - shards[i].off <= |disk[i]|
  }

  lemma {:induction false} LaidAscends(files: seq<seq<Byte>>, shards: seq<Shard>, region: seq<Byte>, limit: nat)
    requires Laid(files, shards, region, limit) && Aligned(|region|)
    ensures Ascending(shards) && AllAligned(shards) && |files| == |shards| && SortByOff(shards) == shards
    ensures forall i :: 0 <= i < |shards| ==> shards[i].file == i && shards[i].End() <= |region|
  {
    assert shards == [] ==> files == [];
    if shards != [] { EachShardLaid(files, shards, region, limit, 0); }
    hide Laid, SortByOff, Aligned;
    forall i | 0 <= i < |shards|
      ensures shards[i].file == i && shards[i].End() <= |region| && Aligned(shards[i].off) && Aligned(shards[i].nbytes)
    {
      EachShardLaid(files, shards, region, limit, i);
    }
    forall i, j | 0 <= i < j < |shards| ensures shards[i].End() <= shards[j].off {
      LaterStartsLater(files, shards, region, limit, i, j);
    }
    SortKeepsOrder(shards);
  }

  lemma {:induction false} LaterStartsLater(files: seq<seq<Byte>>, shards: seq<Shard>, region: seq<Byte>, limit: nat,
        i: nat, j: nat)
    requires Laid(files, shards, region, limit) && i < j < |shards|
    ensures shards[i].End() <= shards[j].off
    decreases j - i
  {
    EachShardLaid(files, shards, region, limit, i);
    if i + 1 < j {
      LaterStartsLater(files, shards, region, limit, i + 1, j);
      EachShardLaid(files, shards, region, limit, i + 1);
    }
  }

  /** Some shard contains each position of the region. */
  lemma {:induction false} RegionCovered(files: seq<seq<Byte>>, shards: seq<Shard>, region: seq<Byte>, limit: nat,
        pos: nat)
    requires Laid(files, shards, region, limit)
    ensures InSome(shards, pos) <==> pos < |region|
  {
    if shards != [] {
      var last := |shards| - 1;
      var front, s := shards[..last], shards[last];
      RegionCovered(files[..last], front, region[..s.off], limit, pos);
      if InSome(front, pos) {
        var i :| 0 <= i < |front| && front[i].off <= pos < front[i].End();
        assert shards[i] == front[i];
      }
      if pos < |region| && s.off <= pos {
        assert shards[last].off <= pos < shards[last].End();
      }
      if InSome(shards, pos) {
        var i :| 0 <= i < |shards| && shards[i].off <= pos < shards[i].End();
        EachShardLaid(files, shards, region, limit, i);
      }
    }
  }

  /** The job that fills a given place of the destination. */
  lemma {:induction false} JobAt(jobs: seq<Piece>, total: nat, x: nat) returns (k: nat)
    requires Tiles(jobs, total) && x < total
    ensures k < |jobs| && jobs[k].destOff <= x < jobs[k].destOff + jobs[k].len
  {
    k := |jobs| - 1;
    if x < jobs[k].destOff {
      k := JobAt(jobs[..k], jobs[k].destOff, x);
    }
  }

  /** The jobs of a range all find their bytes exactly when the files still reach far enough. */
  lemma {:induction false} JobsSucceedIff(disk: seq<seq<Byte>>, jobs: seq<Piece>, total: nat, shards: seq<Shard>,
        off: nat)
    requires Tiles(jobs, total) && FromShards(jobs, shards, off)
    requires Ascending(shards) && |disk| == |shards| && forall i :: 0 <= i < |shards| ==> shards[i].file == i
    ensures (forall k :: 0 <= k < |jobs| ==> InFile(jobs[k], disk)) <==> Present(disk, shards, off, off + total)
  {
    if Present(disk, shards, off, off + total) {
      forall k | 0 <= k < |jobs| ensures InFile(jobs[k], disk) {
        PresentServes(disk, jobs, total, shards, off, k);
      }
    }
    if forall k :: 0 <= k < |jobs| ==> InFile(jobs[k], disk) {
      forall i | 0 <= i < |shards| && Max(off, shards[i].off) < Min(off + total, shards[i].End())
        ensures i < |disk| && Min(off + total, shards[i].End()) - shards[i].off <= |disk[i]|
      {
        ServedIsPresent(disk, jobs, total, shards, off, i);
      }
    }
  }

  lemma {:induction false} PresentServes(disk: seq<seq<Byte>>, jobs: seq<Piece>, total: nat, shards: seq<Shard>,
        off: nat, k: nat)
    requires Tiles(jobs, total) && FromShards(jobs, shards, off) && k < |jobs|
    requires |disk| == |shards| && forall i :: 0 <= i < |shards| ==> shards[i].file == i
    requires Present(disk, shards, off, off + total)
    ensures InFile(jobs[k], disk)
  {
    TilesWithin(jobs, total, k);
    var i :| 0 <= i < |shards| && FromShard(jobs[k], shards[i], off);
  }

  lemma {:induction false} OneShardAt(shards: seq<Shard>, i: nat, j: nat, pos: nat)
    requires Ascending(shards) && i < |shards| && j < |shards|
    requires shards[i].off <= pos < shards[i].End() && shards[j].off <= pos < shards[j].End()
    ensures i == j
  {
  }

  lemma {:induction false} ServedIsPresent(disk: seq<seq<Byte>>, jobs: seq<Piece>, total: nat, shards: seq<Shard>,
        off: nat, i: nat)
    requires Tiles(jobs, total) && FromShards(jobs, shards, off) && i < |shards|
    requires Ascending(shards) && |disk| == |shards| && forall i :: 0 <= i < |shards| ==> shards[i].file == i
    requires forall k :: 0 <= k < |jobs| ==> InFile(jobs[k], disk)
    requires Max(off, shards[i].off) < Min(off + total, shards[i].End())
    ensures Min(off + total, shards[i].End()) - shards[i].off <= |disk[i]|
  {
    var x := Min(off + total, shards[i].End()) - 1 - off;
    var k := JobAt(jobs, total, x);
    var j :| 0 <= j < |shards| && FromShard(jobs[k], shards[j], off);
    OneShardAt(shards, i, j, off + x);
  }

  lemma {:induction false} FilledByte(buf: seq<Byte>, disk: seq<seq<Byte>>, files: seq<seq<Byte>>, job: Piece, x: nat,
      shards: seq<Shard>, region: seq<Byte>, limit: nat, off: nat, i: nat)
    requires Laid(files, shards, region, limit) && MaybeTruncated(disk, files)
    requires i < |shards| && FromShard(job, shards[i], off) && Filled(buf, job, job.len, disk)
    requires job.destOff <= x < job.destOff + job.len
    ensures off + x < |region| && buf[x] == region[off + x]
  {
    EachShardLaid(files, shards, region, limit, i);
    var b := x - job.destOff;
    assert buf[x] == buf[job.destOff..job.destOff + job.len][b];
    assert buf[x] == disk[i][job.fileOff + b] == files[i][job.fileOff + b];
  }

  /** What successful jobs have stored is the logical range. */
  lemma {:induction false} FilledIsRange(buf: seq<Byte>, disk: seq<seq<Byte>>, files: seq<seq<Byte>>,
        jobs: seq<Piece>, total: nat,
      shards: seq<Shard>, region: seq<Byte>, limit: nat, off: nat)
    requires Laid(files, shards, region, limit) && MaybeTruncated(disk, files)
    requires Tiles(jobs, total) && FromShards(jobs, shards, off)
    requires total <= |buf| && off + total <= |region|
    requires forall k :: 0 <= k < |jobs| ==> Filled(buf, jobs[k], jobs[k].len, disk)
    ensures buf[..total] == region[off..off + total]
  {
    hide Laid, MaybeTruncated, Tiles, FromShard, Filled;
    forall x | 0 <= x < total ensures buf[x] == region[off + x] {
      var k := JobAt(jobs, total, x);
      var i :| 0 <= i < |shards| && FromShard(jobs[k], shards[i], off);
      FilledByte(buf, disk, files, jobs[k], x, shards, region, limit, off, i);
    }
  }

  /** The read jobs of an aligned range; there are some exactly when the range is in the region. */
  method PlanJobs(shards: seq<Shard>, off: nat, nbytes: nat, chunk: nat,
      ghost files: seq<seq<Byte>>, ghost region: seq<Byte>, ghost limit: nat) returns (r: Result<seq<Piece>, ReadError>)
    requires Laid(files, shards, region, limit) && Aligned(|region|) && Aligned(off) && 0 < chunk
    ensures r.Ok? <==> nbytes == 0 || off + nbytes <= |region|
    ensures r.Ok? ==> Tiles(r.value, AlignUp(nbytes)) && FromShards(r.value, shards, off)
    ensures r.Ok? ==> Jobs(r.value, AlignUp(nbytes), shards, off, chunk)
  {
    LaidAscends(files, shards, region, limit);
    RangeCoveredIff(files, shards, region, limit, off, nbytes);
    hide Laid, Tiles, FromShards, CutAtShards, Jobs, Covered;
    var sorted := SortByOff(shards);
    var pieces := Pieces(sorted, off, nbytes);
    if pieces.Err? {
      return Err(pieces.error);
    }
    var jobs := BuildJobs(pieces.value, chunk, nbytes, shards, off);
    JobsFromShards(jobs, AlignUp(nbytes), shards, off, chunk);
    return Ok(jobs);
  }

  /** Reads the aligned range at `off` into `dest`, tail rounded up. It succeeds exactly when the
      range is inside the region and no needed shard is truncated, and then holds exactly the
      region's bytes, whatever the chunk size, the mode and the order of the workers. */
  method ReadInto(disk: seq<seq<Byte>>, shards: seq<Shard>, dest: array<Byte>, off: nat, nbytes: nat, chunk: nat,
        direct: bool,
      ghost files: seq<seq<Byte>>, ghost region: seq<Byte>, ghost limit: nat) returns (r: Result<(), ReadError>)
    requires Laid(files, shards, region, limit) && Aligned(|region|) && MaybeTruncated(disk, files)
    requires Aligned(off) && 0 < chunk && AlignUp(nbytes) <= dest.Length
    modifies dest
    ensures r.Ok? <==> nbytes == 0 || (off + nbytes <= |region| && Present(disk, shards, off, off + AlignUp(nbytes)))
    ensures r.Ok? && nbytes > 0 ==>
        off + AlignUp(nbytes) <= |region| && dest[..AlignUp(nbytes)] == region[off..off + AlignUp(nbytes)]
    ensures dest[AlignUp(nbytes)..] == old(dest[AlignUp(nbytes)..])
  {
    hide Laid, Tiles, FromShards, Jobs, Present, Filled, InFile;
    var plan := PlanJobs(shards, off, nbytes, chunk, files, region, limit);
    if plan.Err? {
      return Err(plan.error);
    }
    var jobs := plan.value;
    ghost var total := AlignUp(nbytes);
    JobsServedIff(disk, files, jobs, total, shards, region, limit, off);
    var ok := RunJobs(disk, jobs, dest, direct, total);
    if !ok {
      return Err(UnexpectedEof);
    }
    if nbytes > 0 {
      AlignUpShift(off, nbytes);
      AlignUpLeast(off + nbytes, |region|);
      FilledIsRange(dest[..], disk, files, jobs, total, shards, region, limit, off);
    }
    return Ok(());
  }

  lemma {:induction false} JobsServedIff(disk: seq<seq<Byte>>, files: seq<seq<Byte>>, jobs: seq<Piece>, total: nat,
      shards: seq<Shard>, region: seq<Byte>, limit: nat, off: nat)
    requires Laid(files, shards, region, limit) && Aligned(|region|) && MaybeTruncated(disk, files)
    requires Tiles(jobs, total) && FromShards(jobs, shards, off)
    ensures forall k :: 0 <= k < |jobs| ==> 0 <= jobs[k].file < |disk|
    ensures (forall k :: 0 <= k < |jobs| ==> InFile(jobs[k], disk)) <==> Present(disk, shards, off, off + total)
    ensures total == 0 ==> jobs == []
  {
    LaidAscends(files, shards, region, limit);
    JobFilesExist(jobs, shards, off, |disk|);
    JobsSucceedIff(disk, jobs, total, shards, off);
  }

  lemma {:induction false} JobsFromShards(jobs: seq<Piece>, total: nat, shards: seq<Shard>, off: nat, chunk: nat)
    requires Jobs(jobs, total, shards, off, chunk)
    ensures FromShards(jobs, shards, off)
  {
    forall k | 0 <= k < |jobs| ensures exists i :: 0 <= i < |shards| && FromShard(jobs[k], shards[i], off) {
      assert JobFits(jobs[k], shards, off, chunk);
    }
  }

  lemma {:induction false} JobFilesExist(jobs: seq<Piece>, shards: seq<Shard>, off: nat, n: nat)
    requires FromShards(jobs, shards, off) && n == |shards| && forall i :: 0 <= i < |shards| ==> shards[i].file == i
    ensures forall k :: 0 <= k < |jobs| ==> 0 <= jobs[k].file < n
  {
    forall k | 0 <= k < |jobs| ensures 0 <= jobs[k].file < n {
      var job := jobs[k];
      var i :| 0 <= i < |shards| && FromShard(job, shards[i], off);
    }
  }

  lemma {:induction false} RangeCoveredIff(files: seq<seq<Byte>>, shards: seq<Shard>, region: seq<Byte>, limit: nat,
        off: nat, nbytes: nat)
    requires Laid(files, shards, region, limit)
    ensures Covered(shards, off, off + nbytes) <==> nbytes == 0 || off + nbytes <= |region|
  {
    forall pos: nat ensures InSome(shards, pos) <==> pos < |region| {
      RegionCovered(files, shards, region, limit, pos);
    }
    if nbytes > 0 && Covered(shards, off, off + nbytes) {
      assert InSome(shards, off + nbytes - 1);
    }
  }

  lemma {:induction false} PrefixOfRange(buf: seq<Byte>, region: seq<Byte>, off: nat, n: nat, m: nat)
    requires n <= m <= |buf| && off + m <= |region| && buf[..m] == region[off..off + m]
    ensures buf[..n] == region[off..off + n]
  {
    assert buf[..n] == buf[..m][..n];
  }

  /** Allocates a rounded-up buffer, reads the range into it and keeps its first `nbytes`. A buffer
      of no bytes cannot be mapped. */
  method ReadBuffer(disk: seq<seq<Byte>>, shards: seq<Shard>, off: nat, nbytes: nat, chunk: nat, direct: bool,
      ghost files: seq<seq<Byte>>, ghost region: seq<Byte>, ghost limit: nat) returns (r: Result<seq<Byte>, ReadError>)
    requires Laid(files, shards, region, limit) && Aligned(|region|) && MaybeTruncated(disk, files)
    requires Aligned(off) && 0 < chunk && off + nbytes <= |region|
    ensures r.Ok? <==> 0 < nbytes && Present(disk, shards, off, off + AlignUp(nbytes))
    ensures r.Ok? ==> r.value == region[off..off + nbytes]
  {
    hide Laid, MaybeTruncated, Present;
    if AlignUp(nbytes) == 0 {
      return Err(CannotMapEmpty);
    }
    var buf := new Byte[AlignUp(nbytes)];
    var read := ReadInto(disk, shards, buf, off, nbytes, chunk, direct, files, region, limit);
    if read.Err? {
      return Err(read.error);
    }
    PrefixOfRange(buf[..], region, off, nbytes, AlignUp(nbytes));
    return Ok(buf[..nbytes]);
  }

  /** A tensor as the weight iterator yields it. */
  datatype Loaded = Loaded(name: string, dtype: string, shape: seq<nat>, bytes: seq<Byte>)

  function Product(shape: seq<nat>): nat {
    if shape == [] then 1 else shape[0] * Product(shape[1..])
  }

  ghost predicate WellFormed(t: Tensor) {
    0 < t.elsize && |t.bytes| == Product(t.shape) * t.elsize
  }

  /** Loads entry `k` the way the weight iterator does. An empty tensor cannot be loaded: its
      buffer cannot be mapped. Any other one loads exactly if no shard it needs is truncated, and
      gives the name, type and bytes that were written; the shape too, with one dimension of one for none. */
  method LoadWeight(disk: seq<seq<Byte>>, index: Index, k: nat, chunk: nat, direct: bool,
      ghost files: seq<seq<Byte>>, ghost ts: seq<Tensor>, ghost limit: nat) returns (r: Result<Loaded, ReadError>)
    requires Encodes(Checkpoint(index, files), ts, limit) && MaybeTruncated(disk, files)
    requires k < |ts| && WellFormed(ts[k]) && 0 < chunk
    ensures r.Ok? <==>
        (0 < |ts[k].bytes| && Present(disk, index.shards, Entries(ts)[k].off,
        Entries(ts)[k].off + AlignUp(|ts[k].bytes|)))
    ensures r.Ok? ==> r.value.name == ts[k].name && r.value.dtype == ts[k].dtype && r.value.bytes == ts[k].bytes
    ensures r.Ok? ==> r.value.shape == if ts[k].shape == [] then [1] else ts[k].shape
  {
    EntryLocatesTensor(ts, k);
    hide Laid, MaybeTruncated, Present, Region, Product, AllWhole;
    var e := index.tensors[k];
    var read := ReadBuffer(disk, index.shards, e.off, e.nbytes, chunk, direct, files, Region(ts), limit);
    if read.Err? {
      return Err(read.error);
    }
    if e.shape == [] { OneElement(ts[k]); }
    var shape := if e.shape == [] then [e.nbytes / e.elsize] else e.shape;
    return Ok(Loaded(e.name, e.dtype, shape, read.value));
  }

  lemma {:induction false} OneElement(t: Tensor)
    requires WellFormed(t) && t.shape == []
    ensures 0 < t.elsize && |t.bytes| / t.elsize == 1
  {
  }
}
