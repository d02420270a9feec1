/** Running the read jobs: short reads, end of file, and workers in any interleaving. */
module FtwReadInto {
  import opened Basics
  import opened FtwFormat
  import opened FtwReader

  lemma {:induction false} SpliceNothing(buf: seq<Byte>, at: nat)
    requires at <= |buf|
    ensures Spliced(buf, at, []) == buf
  {
  }

  lemma {:induction false} SpliceTwice(buf: seq<Byte>, at: nat, a: seq<Byte>, b: seq<Byte>)
    requires at + |a| + |b| <= |buf|
    ensures Spliced(Spliced(buf, at, a), at + |a|, b) == Spliced(buf, at, a + b)
  {
  }

  /** Stores `data` at `at`. */
  method Store(dest: array<Byte>, at: nat, data: seq<Byte>)
    requires at + |data| <= dest.Length
    modifies dest
    ensures dest[..] == Spliced(old(dest[..]), at, data)
  {
    forall b | 0 <= b < |data| {
      dest[at + b] := data[b];
    }
  }

  /** One positional read call: at least one byte and at most what is asked, or none at the end. */
  method Pread(file: seq<Byte>, offset: nat, want: Pos) returns (data: seq<Byte>)
    ensures |data| <= want && (|data| == 0 <==> |file| <= offset)
    ensures 0 < |data| ==> offset + |data| <= |file| && data == file[offset..offset + |data|]
  {
    if |file| <= offset {
      return [];
    }
    var most := if want < |file| - offset then want else |file| - offset;
    var n: nat :| 0 < n <= most;
    return file[offset..offset + n];
  }

  /** The first `n` bytes from `offset`. */
  function Got(file: seq<Byte>, offset: nat, n: nat): (d: seq<Byte>)
    requires n == 0 || offset + n <= |file|
    ensures |d| == n
  {
    if n == 0 then [] else file[offset..offset + n]
  }

  lemma {:induction false} GotNothing(file: seq<Byte>, offset: nat)
    ensures Got(file, offset, 0) == []
  {
  }

  lemma {:induction false} GotMore(file: seq<Byte>, offset: nat, m: nat, n: nat)
    requires 0 < n && offset + m + n <= |file|
    ensures Got(file, offset, m) + file[offset + m..offset + m + n] == Got(file, offset, m + n)
  {
  }

  /** Fills `dest[at..at + total]` from `offset`, resuming after short reads. It fails exactly
      when the file ends too early, and then reports how many bytes it got. */
  method PreadInto(file: seq<Byte>, dest: array<Byte>, at: nat, total: nat, offset: nat) returns (r: Result<(), nat>)
    requires at + total <= dest.Length
    modifies dest
    ensures r.Ok? <==> total == 0 || offset + total <= |file|
    ensures r.Err? ==> r.error < total && r.error == if offset < |file| then |file| - offset else 0
    ensures dest[..] == Spliced(old(dest[..]), at, Got(file, offset, if r.Ok? then total else r.error))
  {
    hide Spliced, Got;
    var done := 0;
    ghost var before := dest[..];
    SpliceNothing(before, at);
    GotNothing(file, offset);
    while done < total
      invariant done <= total && (0 < done ==> offset + done <= |file|)
      invariant dest[..] == Spliced(before, at, Got(file, offset, done))
      decreases total - done
    {
      var data := Pread(file, offset + done, total - done);
      if |data| == 0 {
        return Err(done);
      }
      Store(dest, at + done, data);
      SpliceTwice(before, at, Got(file, offset, done), data);
      GotMore(file, offset, done, |data|);
      done := done + |data|;
    }
    return Ok(());
  }

  // ----- The worker pool -----

  /** How far a job is: bytes stored so far, or given up at the end of its file. */
  datatype Progress = Reading(done: nat) | Failed

  ghost predicate InFile(job: Piece, files: seq<seq<Byte>>) {
    0 <= job.file < |files| && job.fileOff + job.len <= |files[job.file]|
  }

  /** The first `done` bytes of the job are in their place. */
  ghost predicate Filled(buf: seq<Byte>, job: Piece, done: nat, files: seq<seq<Byte>>) {
    && job.destOff + done <= |buf|
    && (done == 0 || (0 <= job.file < |files| && job.fileOff + done <= |files[job.file]|
        && buf[job.destOff..job.destOff + done] == files[job.file][job.fileOff..job.fileOff + done]))
  }

  ghost predicate Sound(buf: seq<Byte>, job: Piece, p: Progress, files: seq<seq<Byte>>) {
    match p
    case Reading(done) => done <= job.len && Filled(buf, job, done, files)
    case Failed => !InFile(job, files)
  }

  predicate Open(job: Piece, p: Progress) {
    p.Reading? && p.done < job.len
  }

  function Todo(jobs: seq<Piece>, ps: seq<Progress>): (n: nat)
    requires |jobs| == |ps|
  {
    if jobs == [] then 0 else
      var job, p := jobs[|jobs| - 1], ps[|jobs| - 1];
      (if Open(job, p) then job.len - p.done else 0) + Todo(jobs[..|jobs| - 1], ps[..|jobs| - 1])
  }

  lemma {:induction false} TodoDrops(jobs: seq<Piece>, ps: seq<Progress>, k: nat, p: Progress)
    requires |jobs| == |ps| && k < |jobs| && Open(jobs[k], ps[k])
    requires p.Failed? || ps[k].done < p.done <= jobs[k].len
    ensures Todo(jobs, ps[k := p]) < Todo(jobs, ps)
  {
    var n := |jobs| - 1;
    if k < n {
      TodoDrops(jobs[..n], ps[..n], k, p);
      assert ps[k := p][..n] == ps[..n][k := p];
    } else {
      assert ps[k := p][..n] == ps[..n];
    }
  }

  lemma {:induction false} TilesApart(jobs: seq<Piece>, total: nat, i: nat, j: nat)
    requires Tiles(jobs, total) && i < j < |jobs|
    ensures jobs[i].destOff + jobs[i].len <= jobs[j].destOff && jobs[j].destOff + jobs[j].len <= total
  {
    var front := jobs[..|jobs| - 1];
    if j < |front| {
      TilesApart(front, jobs[|jobs| - 1].destOff, i, j);
    } else {
      TilesWithin(front, jobs[|jobs| - 1].destOff, i);
    }
  }

  lemma {:induction false} TilesWithin(jobs: seq<Piece>, total: nat, i: nat)
    requires Tiles(jobs, total) && i < |jobs|
    ensures 0 < jobs[i].len && jobs[i].destOff + jobs[i].len <= total
  {
    if i < |jobs| - 1 {
      TilesWithin(jobs[..|jobs| - 1], jobs[|jobs| - 1].destOff, i);
    }
  }

  lemma {:induction false} FilledMore(buf: seq<Byte>, job: Piece, done: nat, data: seq<Byte>, files: seq<seq<Byte>>)
    requires Filled(buf, job, done, files) && done + |data| <= job.len && job.destOff + job.len <= |buf|
    requires 0 <= job.file < |files| && job.fileOff + done + |data| <= |files[job.file]|
    requires data == files[job.file][job.fileOff + done..job.fileOff + done + |data|]
    ensures var after := Spliced(buf, job.destOff + done, data);
      && Filled(after, job, done + |data|, files)
      && forall b :: 0 <= b < |buf| && !(job.destOff <= b < job.destOff + job.len) ==> after[b] == buf[b]
  {
    var after, at := Spliced(buf, job.destOff + done, data), job.destOff;
    assert after[at..at + done + |data|] == buf[at..at + done] + data;
    var file := files[job.file];
    assert file[job.fileOff..job.fileOff + done + |data|] == file[job.fileOff..job.fileOff + done] + data;
  }

  /** One call of one worker: a positional read that may come back short, or, on the mapped
      path, the bounds check and the whole copy. */
  method Work(files: seq<seq<Byte>>, job: Piece, p: Progress, dest: array<Byte>, direct: bool) returns (q: Progress)
    requires Open(job, p) && Sound(dest[..], job, p, files)
    requires 0 <= job.file < |files| && job.destOff + job.len <= dest.Length
    modifies dest
    ensures Sound(dest[..], job, q, files)
    ensures q.Reading? ==> p.done < q.done
    ensures forall b :: 0 <= b < dest.Length && !(job.destOff <= b < job.destOff + job.len) ==> dest[b] == old(dest[b])
  {
    hide Spliced, Filled;
    var file := files[job.file];
    var data;
    if direct {
      data := Pread(file, job.fileOff + p.done, job.len - p.done);
      if |data| == 0 {
        return Failed;
      }
    } else {
      if job.fileOff + job.len > |file| {
        return Failed;
      }
      data := file[job.fileOff + p.done..job.fileOff + job.len];
    }
    FilledMore(dest[..], job, p.done, data, files);
    ghost var before := dest[..];
    Store(dest, job.destOff + p.done, data);
    assert forall b :: 0 <= b < dest.Length ==> dest[b] == dest[..][b] && old(dest[b]) == before[b];
    q := Reading(p.done + |data|);
  }

  /** All jobs at once, the calls of the workers interleaved in any order. Success and the bytes
      stored depend only on the files and the jobs, never on the interleaving. */
  method RunJobs(files: seq<seq<Byte>>, jobs: seq<Piece>, dest: array<Byte>, direct: bool, ghost total: nat)
        returns (ok: bool)
    requires Tiles(jobs, total) && total <= dest.Length
    requires forall k :: 0 <= k < |jobs| ==> 0 <= jobs[k].file < |files|
    modifies dest
    ensures ok <==> forall k :: 0 <= k < |jobs| ==> InFile(jobs[k], files)
    ensures ok ==> forall k :: 0 <= k < |jobs| ==> Filled(dest[..], jobs[k], jobs[k].len, files)
    ensures dest[total..] == old(dest[total..])
  {
    var ps := seq(|jobs|, _ => Reading(0));
    forall k | 0 <= k < |jobs| ensures Sound(dest[..], jobs[k], ps[k], files) {
      TilesWithin(jobs, total, k);
    }
    while exists k :: 0 <= k < |jobs| && Open(jobs[k], ps[k])
      invariant |ps| == |jobs|
      invariant forall k :: 0 <= k < |jobs| ==> Sound(dest[..], jobs[k], ps[k], files)
      invariant dest[total..] == old(dest[total..])
      decreases Todo(jobs, ps)
    {
      var k :| 0 <= k < |jobs| && Open(jobs[k], ps[k]);
      TilesWithin(jobs, total, k);
      ghost var before := dest[..];
      var p := Work(files, jobs[k], ps[k], dest, direct);
      forall j | 0 <= j < |jobs| && j != k ensures Sound(dest[..], jobs[j], ps[j], files) {
        OthersKept(jobs, total, k, j, before, dest[..], ps[j], files);
      }
      TodoDrops(jobs, ps, k, p);
      ps := ps[k := p];
    }
    ok := forall k :: 0 <= k < |jobs| ==> ps[k].Reading?;
    forall k | 0 <= k < |jobs|
      ensures ps[k].Reading? <==> InFile(jobs[k], files)
      ensures ps[k].Reading? ==> Filled(dest[..], jobs[k], jobs[k].len, files)
    {
      TilesWithin(jobs, total, k);
      assert !Open(jobs[k], ps[k]);
    }
  }

  lemma {:induction false} OthersKept(jobs: seq<Piece>, total: nat, k: nat, j: nat, before: seq<Byte>,
        after: seq<Byte>, p: Progress, files: seq<seq<Byte>>)
    requires Tiles(jobs, total) && k < |jobs| && j < |jobs| && j != k
    requires |before| == |after| && Sound(before, jobs[j], p, files)
    requires forall b :: 0 <= b < |before| && !(jobs[k].destOff <= b < jobs[k].destOff + jobs[k].len) ==>
        after[b] == before[b]
    ensures Sound(after, jobs[j], p, files)
  {
    if j < k { TilesApart(jobs, total, j, k); } else { TilesApart(jobs, total, k, j); }
    if p.Reading? && p.done > 0 {
      var a := jobs[j].destOff;
      assert after[a..a + p.done] == before[a..a + p.done];
    }
  }
}
