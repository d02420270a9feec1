/** The reader: a logical range is cut at shard boundaries into pieces, the pieces into read
    jobs, and the jobs run in any interleaving over a destination buffer. */
module FtwReader {
  import opened Basics
  import opened FtwFormat

  datatype ReadError = Gap | ExceedsShards | UnexpectedEof | CannotMapEmpty

  /** Stable insertion sort by start: the order in which the reader keeps the shards. */
  function InsertByOff(s: Shard, sorted: seq<Shard>): seq<Shard> {
    if sorted == [] || s.off <= sorted[0].off then [s] + sorted else [sorted[0]] + InsertByOff(s, sorted[1..])
  }

  function SortByOff(shards: seq<Shard>): seq<Shard> {
    if shards == [] then [] else InsertByOff(shards[0], SortByOff(shards[1..]))
  }

  /** Written shards are already in the reader's order, an empty last shard included. */
  lemma {:induction false} SortKeepsOrder(shards: seq<Shard>)
    requires forall i, j :: 0 <= i < j < |shards| ==> shards[i].off <= shards[j].off
    ensures SortByOff(shards) == shards
  {
    if shards != [] {
      SortKeepsOrder(shards[1..]);
    }
  }

  /** Bytes of one shard file and where in the destination they go. */
  datatype Piece = Piece(file: int, fileOff: nat, destOff: nat, len: nat)

  /** The pieces fill the destination from 0 to `total` without gap, overlap or empty piece. */
  ghost predicate Tiles(ps: seq<Piece>, total: nat) {
    if ps == [] then total == 0
    else
      var p := ps[|ps| - 1];
      0 < p.len && p.destOff + p.len == total && Tiles(ps[..|ps| - 1], p.destOff)
  }

  /** The piece reads, inside shard `s`, the bytes that belong at its place in the range. */
  ghost predicate FromShard(p: Piece, s: Shard, globalOff: nat) {
    && p.file == s.file
    && s.off + p.fileOff == globalOff + p.destOff
    && p.fileOff + p.len <= s.nbytes
  }

  ghost predicate FromShards(ps: seq<Piece>, shards: seq<Shard>, globalOff: nat) {
    forall k :: 0 <= k < |ps| ==> exists i :: 0 <= i < |shards| && FromShard(ps[k], shards[i], globalOff)
  }

  /** All pieces but the last, and the last too if `closed`, stop at the end of their shard. */
  ghost predicate CutAtShards(ps: seq<Piece>, shards: seq<Shard>, globalOff: nat, closed: bool) {
    forall k :: 0 <= k < |ps| && (closed || k < |ps| - 1) ==>
      exists i :: 0 <= i < |shards| && FromShard(ps[k], shards[i], globalOff) &&
          ps[k].fileOff + ps[k].len == shards[i].nbytes
  }

  ghost predicate Ascending(shards: seq<Shard>) {
    forall i, j :: 0 <= i < j < |shards| ==> shards[i].End() <= shards[j].off
  }

  ghost predicate InSome(shards: seq<Shard>, pos: nat) {
    exists i :: 0 <= i < |shards| && shards[i].off <= pos < shards[i].End()
  }

  ghost predicate Covered(shards: seq<Shard>, from: nat, to: nat) {
    forall pos: nat :: from <= pos < to ==> InSome(shards, pos)
  }

  /** Cuts the range at shard boundaries. With ascending shards it succeeds exactly when every
      byte of the range is in some shard. */
  method Pieces(shards: seq<Shard>, globalOff: nat, nbytes: nat) returns (r: Result<seq<Piece>, ReadError>)
    ensures r.Ok? ==> Tiles(r.value, nbytes) && FromShards(r.value, shards, globalOff)
    ensures r.Ok? ==> CutAtShards(r.value, shards, globalOff, false)
    ensures Ascending(shards) ==> (r.Ok? <==> Covered(shards, globalOff, globalOff + nbytes))
  {
    hide Tiles, FromShards, FromShard, CutAtShards;
    var destOff: nat, remaining: nat := 0, nbytes;
    var out: seq<Piece> := [];
    NoPieces(shards, globalOff);
    for i := 0 to |shards|
      invariant destOff + remaining == nbytes
      invariant Tiles(out, destOff) && FromShards(out, shards, globalOff)
      invariant CutAtShards(out, shards, globalOff, 0 < remaining)
      invariant Covered(shards, globalOff, globalOff + destOff)
      invariant remaining == 0 || forall j :: 0 <= j < i ==> shards[j].End() <= globalOff + destOff
    {
      var s := shards[i];
      var pos := globalOff + destOff;
      if pos >= s.End() || remaining == 0 {
        continue;
      }
      if pos < s.off {
        assert Ascending(shards) ==> !InSome(shards, pos);
        return Err(Gap);
      }
      var take: nat := if remaining < s.End() - pos then remaining else s.End() - pos;
      var p := Piece(s.file, pos - s.off, destOff, take);
      assert FromShard(p, shards[i], globalOff) by { IsFromShard(p, s, globalOff); }
      OneMorePiece(out, p, shards, i, globalOff, 0 < remaining - take);
      out := out + [p];
      destOff, remaining := destOff + take, remaining - take;
    }
    if remaining > 0 {
      assert !InSome(shards, globalOff + destOff);
      return Err(ExceedsShards);
    }
    return Ok(out);
  }

  lemma {:induction false} NoPieces(shards: seq<Shard>, globalOff: nat)
    ensures Tiles([], 0) && FromShards([], shards, globalOff)
    ensures forall closed :: CutAtShards([], shards, globalOff, closed)
  {
  }

  lemma {:induction false} IsFromShard(p: Piece, s: Shard, globalOff: nat)
    requires p.file == s.file && s.off + p.fileOff == globalOff + p.destOff && p.fileOff + p.len <= s.nbytes
    ensures FromShard(p, s, globalOff)
  {
  }

  lemma {:induction false} OneMorePiece(out: seq<Piece>, p: Piece, shards: seq<Shard>, i: nat, globalOff: nat,
        closed: bool)
    requires Tiles(out, p.destOff) && FromShards(out, shards, globalOff) && 0 < p.len
    requires CutAtShards(out, shards, globalOff, true) && Covered(shards, globalOff, globalOff + p.destOff)
    requires i < |shards| && FromShard(p, shards[i], globalOff)
    requires closed ==> p.fileOff + p.len == shards[i].nbytes
    ensures var ps, end := out + [p], p.destOff + p.len;
      && Tiles(ps, end) && FromShards(ps, shards, globalOff)
      && CutAtShards(ps, shards, globalOff, closed)
      && Covered(shards, globalOff, globalOff + end)
  {
    assert (out + [p])[..|out|] == out;
    forall q: nat | globalOff + p.destOff <= q < globalOff + p.destOff + p.len ensures InSome(shards, q) {
      assert shards[i].off <= q < shards[i].End();
    }
  }

  ghost predicate AllAligned(shards: seq<Shard>) {
    forall i :: 0 <= i < |shards| ==> Aligned(shards[i].off) && Aligned(shards[i].nbytes)
  }

  /** Over aligned shards an aligned range is cut at aligned offsets; only the tail may end unaligned. */
  lemma {:induction false} PiecesAligned(ps: seq<Piece>, total: nat, shards: seq<Shard>, globalOff: nat, closed: bool)
    requires Tiles(ps, total) && FromShards(ps, shards, globalOff) && CutAtShards(ps, shards, globalOff, closed)
    requires Aligned(globalOff) && AllAligned(shards)
    ensures closed ==> Aligned(total)
    ensures forall k :: 0 <= k < |ps| ==>
      Aligned(ps[k].fileOff) && Aligned(ps[k].destOff) && (k < |ps| - 1 ==> Aligned(ps[k].len))
  {
    if ps != [] {
      var front, p := ps[..|ps| - 1], ps[|ps| - 1];
      assert CutAtShards(front, shards, globalOff, true) by {
        assert forall k :: 0 <= k < |front| ==> front[k] == ps[k];
      }
      PiecesAligned(front, p.destOff, shards, globalOff, true);
      assert forall k :: 0 <= k < |front| ==> front[k] == ps[k];
      if |front| > 0 {
        PieceLenAligned(ps, |front| - 1, shards, globalOff);
      }
      var i :| 0 <= i < |shards| && FromShard(p, shards[i], globalOff);
      AlignedSum(shards[i].off, p.fileOff);
      AlignedSum(globalOff, p.destOff);
      if closed {
        PieceLenAligned(ps, |front|, shards, globalOff);
        AlignedSum(p.destOff, p.len);
      }
    }
  }

  lemma {:induction false} PieceLenAligned(ps: seq<Piece>, k: nat, shards: seq<Shard>, globalOff: nat)
    requires k < |ps| && Aligned(ps[k].destOff) && Aligned(globalOff) && AllAligned(shards)
    requires exists i ::
        0 <= i < |shards| && FromShard(ps[k], shards[i], globalOff) && ps[k].fileOff + ps[k].len == shards[i].nbytes
    ensures Aligned(ps[k].len)
  {
    var i :| 0 <= i < |shards| && FromShard(ps[k], shards[i], globalOff) &&
        ps[k].fileOff + ps[k].len == shards[i].nbytes;
    AlignedSum(globalOff, ps[k].destOff);
    AlignedSum(shards[i].off, ps[k].fileOff);
    AlignedSum(ps[k].fileOff, ps[k].len);
  }

  // ----- Read jobs -----

  /** A job reads at most a chunk inside its shard, all aligned if the chunk is. */
  ghost predicate JobFits(job: Piece, shards: seq<Shard>, globalOff: nat, chunk: nat) {
    && job.len <= chunk
    && (Aligned(chunk) ==> Aligned(job.fileOff) && Aligned(job.destOff) && Aligned(job.len))
    && exists i :: 0 <= i < |shards| && FromShard(job, shards[i], globalOff)
  }

  ghost predicate Jobs(jobs: seq<Piece>, total: nat, shards: seq<Shard>, globalOff: nat, chunk: nat) {
    Tiles(jobs, total) && forall k :: 0 <= k < |jobs| ==> JobFits(jobs[k], shards, globalOff, chunk)
  }

  lemma {:induction false} OneMoreJob(jobs: seq<Piece>, job: Piece, shards: seq<Shard>, globalOff: nat, chunk: nat)
    requires Jobs(jobs, job.destOff, shards, globalOff, chunk) && JobFits(job, shards, globalOff, chunk) && 0 < job.len
    ensures Jobs(jobs + [job], job.destOff + job.len, shards, globalOff, chunk)
  {
    assert (jobs + [job])[..|jobs|] == jobs;
  }

  /** The piece after the first `k`: where it starts is what the ones before it fill. */
  lemma {:induction false} TilesPrefix(ps: seq<Piece>, total: nat, k: nat)
    requires Tiles(ps, total) && k < |ps|
    ensures Tiles(ps[..k], ps[k].destOff) && 0 < ps[k].len
    ensures ps[k].destOff + ps[k].len == (if k + 1 < |ps| then ps[k + 1].destOff else total)
    ensures ps[0].destOff == 0
  {
    var front := ps[..|ps| - 1];
    if k < |front| {
      TilesPrefix(front, ps[|ps| - 1].destOff, k);
      assert front[..k] == ps[..k];
    } else if |front| > 0 {
      TilesPrefix(front, ps[|ps| - 1].destOff, 0);
    }
  }

  /** Splits one piece, its tail rounded up, into jobs of at most `chunk` bytes. */
  method ChunkPiece(p: Piece, chunk: nat, before: seq<Piece>, ghost shards: seq<Shard>, ghost i: nat,
        ghost globalOff: nat)
    returns (jobs: seq<Piece>)
    requires 0 < chunk
    requires i < |shards| && FromShard(p, shards[i], globalOff)
    requires p.fileOff + AlignUp(p.len) <= shards[i].nbytes
    requires Jobs(before, p.destOff, shards, globalOff, chunk)
    requires Aligned(p.fileOff) && Aligned(p.destOff)
    ensures Jobs(jobs, p.destOff + AlignUp(p.len), shards, globalOff, chunk)
  {
    hide Jobs, JobFits;
    jobs := before;
    var rlen, c := AlignUp(p.len), 0;
    while c < rlen
      invariant 0 <= c && (Aligned(chunk) ==> Aligned(c))
      invariant Jobs(jobs, p.destOff + if c < rlen then c else rlen, shards, globalOff, chunk)
      decreases rlen - c
    {
      var job := Piece(p.file, p.fileOff + c, p.destOff + c, if chunk < rlen - c then chunk else rlen - c);
      ChunkFits(p, c, rlen, chunk, job, shards, i, globalOff);
      OneMoreJob(jobs, job, shards, globalOff, chunk);
      jobs := jobs + [job];
      if Aligned(chunk) {
        AlignedSum(chunk, c);
      }
      c := c + chunk;
    }
  }

  lemma {:induction false} ChunkFits(p: Piece, c: nat, rlen: nat, chunk: nat, job: Piece, shards: seq<Shard>, i: nat,
        globalOff: nat)
    requires i < |shards| && FromShard(p, shards[i], globalOff) && p.fileOff + rlen <= shards[i].nbytes
    requires Aligned(p.fileOff) && Aligned(p.destOff) && Aligned(rlen) && (Aligned(chunk) ==> Aligned(c))
    requires c < rlen && job == Piece(p.file, p.fileOff + c, p.destOff + c, if chunk < rlen - c then chunk
        else rlen - c)
    ensures JobFits(job, shards, globalOff, chunk)
  {
    assert FromShard(job, shards[i], globalOff);
    if Aligned(chunk) {
      AlignedSum(c, rlen);
      AlignedSum(c, p.fileOff);
      AlignedSum(c, p.destOff);
    }
  }

  /** All jobs of a range. They tile the rounded-up destination and stay inside the shards even
      after the round-up. */
  method BuildJobs(pieces: seq<Piece>, chunk: nat, ghost nbytes: nat, ghost shards: seq<Shard>, ghost globalOff: nat)
    returns (jobs: seq<Piece>)
    requires 0 < chunk && Aligned(globalOff) && AllAligned(shards)
    requires Tiles(pieces, nbytes) && FromShards(pieces, shards, globalOff) &&
        CutAtShards(pieces, shards, globalOff, false)
    ensures Jobs(jobs, AlignUp(nbytes), shards, globalOff, chunk)
  {
    PiecesAligned(pieces, nbytes, shards, globalOff, false);
    jobs := [];
    if pieces != [] {
      TilesPrefix(pieces, nbytes, 0);
    }
    hide Tiles, CutAtShards, Jobs;
    for k := 0 to |pieces|
      invariant Jobs(jobs, if k < |pieces| then pieces[k].destOff else AlignUp(nbytes), shards, globalOff, chunk)
    {
      var p := pieces[k];
      ghost var i :| 0 <= i < |shards| && FromShard(p, shards[i], globalOff);
      RoundUpStays(p, shards[i]);
      AlignUpShift(p.destOff, p.len);
      TilesPrefix(pieces, nbytes, k);
      jobs := ChunkPiece(p, chunk, jobs, shards, i, globalOff);
    }
  }

  lemma {:induction false} RoundUpStays(p: Piece, s: Shard)
    requires Aligned(p.fileOff) && Aligned(s.nbytes) && p.fileOff + p.len <= s.nbytes
    ensures p.fileOff + AlignUp(p.len) <= s.nbytes
  {
    AlignUpShift(p.fileOff, p.len);
    AlignUpLeast(p.fileOff + p.len, s.nbytes);
  }
}
