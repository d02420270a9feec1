/** Vision features of a prompt, scattered one prefill chunk at a time. */
module ImagePlan {
  import opened Basics

  /** The tokens `start..end` of one image. */
  datatype TokenSpan = TokenSpan(image: nat, start: nat, end: nat)
  type Image = s: TokenSpan | s.start < s.end witness TokenSpan(0, 0, 1)

  /** Those tokens and the feature rows they take. */
  datatype Span = Span(image: nat, start: nat, end: nat, rowStart: nat, rowEnd: nat)

  datatype Plan<T> = Plan(features: seq<T>, spans: seq<Span>)

  datatype Chunk<T> = Chunk(features: seq<T>, indices: seq<nat>, mask: seq<bool>)

  datatype Error = RowsDoNotMatch | SpansOverlap | BadInterval

  // ----- Building a plan -----

  ghost predicate Ascending(spans: seq<Image>) {
    forall i, j :: 0 <= i < j < |spans| ==> spans[i].end <= spans[j].start
  }

  function Length(spans: seq<Image>): nat {
    if spans == [] then 0 else
      var n := |spans| - 1;
      Length(spans[..n]) + spans[n].end - spans[n].start
  }

  /** The spans with their feature rows, one image after another. */
  function Mapped(images: seq<Image>): (r: seq<Span>)
    ensures |r| == |images|
  {
    if images == [] then [] else
      var n := |images| - 1;
      var s, row := images[n], Length(images[..n]);
      Mapped(images[..n]) + [Span(s.image, s.start, s.end, row, row + s.end - s.start)]
  }

  lemma {:induction false} MappedAt(images: seq<Image>, i: nat)
    requires i < |images|
    ensures Mapped(images)[i] == Span(images[i].image, images[i].start, images[i].end, Length(images[..i]),
        Length(images[..i + 1]))
  {
    var n := |images| - 1;
    if i == n {
      assert images[..n + 1] == images;
      assert |Mapped(images[..n])| == n;
    } else {
      MappedAt(images[..n], i);
      assert images[..n][..i] == images[..i] && images[..n][..i + 1] == images[..i + 1];
    }
  }

  /** Spans in token order, rows in row order, rows as many as tokens and all of them available. */
  ghost predicate Sorted(spans: seq<Span>, rows: nat) {
    && (forall i :: 0 <= i < |spans| ==>
        spans[i].start < spans[i].end && spans[i].rowEnd - spans[i].rowStart == spans[i].end - spans[i].start &&
        spans[i].rowEnd <= rows)
    && (forall i, j :: 0 <= i < j < |spans| ==> spans[i].end <= spans[j].start && spans[i].rowEnd <= spans[j].rowStart)
  }

  method CheckPlan<T>(features: seq<T>, spans: seq<Span>) returns (ok: bool)
    requires forall i :: 0 <= i < |spans| ==>
        spans[i].start < spans[i].end && spans[i].rowEnd - spans[i].rowStart == spans[i].end - spans[i].start
    ensures ok <==> Sorted(spans, |features|)
  {
    var previousEnd, previousRow := 0, 0;
    for i := 0 to |spans|
      invariant forall j :: 0 <= j < i ==> spans[j].end <= previousEnd && spans[j].rowEnd <= previousRow
      invariant i > 0 ==> previousEnd == spans[i - 1].end && previousRow == spans[i - 1].rowEnd
      invariant i == 0 ==> previousEnd == 0 && previousRow == 0
      invariant Sorted(spans[..i], |features|)
    {
      var s := spans[i];
      if s.start < previousEnd || s.rowStart < previousRow {
        assert spans[i - 1].end > s.start || spans[i - 1].rowEnd > s.rowStart;
        return false;
      }
      if s.rowEnd > |features| { return false; }
      previousEnd, previousRow := s.end, s.rowEnd;
    }
    assert spans[..|spans|] == spans;
    return true;
  }

  /** A plan exists exactly when the images ascend and have as many tokens as there are rows. */
  method FromImageSpans<T>(features: seq<T>, images: seq<Image>) returns (r: Result<Plan<T>, Error>)
    ensures r.Ok? <==> Length(images) == |features| && Ascending(images)
    ensures r == Err(RowsDoNotMatch) <==> Length(images) != |features|
    ensures r.Ok? ==> r.value == Plan(features, Mapped(images)) && Sorted(r.value.spans, |features|)
  {
    var offset := 0;
    var spans: seq<Span> := [];
    for i := 0 to |images|
      invariant offset == Length(images[..i]) && spans == Mapped(images[..i])
    {
      var s := images[i];
      assert images[..i + 1][..i] == images[..i];
      spans := spans + [Span(s.image, s.start, s.end, offset, offset + s.end - s.start)];
      offset := offset + s.end - s.start;
    }
    assert images[..|images|] == images;
    if offset != |features| { return Err(RowsDoNotMatch); }
    MappedSorted(images);
    var ok := CheckPlan(features, spans);
    r := if ok then Ok(Plan(features, spans)) else Err(SpansOverlap);
  }

  lemma {:induction false} LengthGrows(images: seq<Image>, i: nat, j: nat)
    requires i <= j <= |images|
    ensures Length(images[..i]) <= Length(images[..j])
  {
    if i < j {
      LengthGrows(images, i, j - 1);
      assert images[..j][..j - 1] == images[..j - 1];
    }
  }

  /** Mapped spans are sorted exactly when the images ascend: their rows always are. */
  lemma {:induction false} MappedSorted(images: seq<Image>)
    ensures Sorted(Mapped(images), Length(images)) <==> Ascending(images)
    ensures forall i :: 0 <= i < |images| ==> Mapped(images)[i].start < Mapped(images)[i].end
    ensures forall i :: 0 <= i < |images| ==>
        Mapped(images)[i].rowEnd - Mapped(images)[i].rowStart == Mapped(images)[i].end - Mapped(images)[i].start
  {
    var spans := Mapped(images);
    assert images[..|images|] == images;
    forall i | 0 <= i < |images|
      ensures spans[i].start == images[i].start && spans[i].end == images[i].end
      ensures spans[i].rowEnd - spans[i].rowStart == spans[i].end - spans[i].start && spans[i].rowEnd <= Length(images)
    {
      MappedAt(images, i);
      LengthGrows(images, i + 1, |images|);
      assert images[..i + 1][..i] == images[..i];
    }
    forall i, j | 0 <= i < j < |images| ensures spans[i].rowEnd <= spans[j].rowStart {
      MappedAt(images, i);
      MappedAt(images, j);
      LengthGrows(images, i + 1, j);
    }
  }

  // ----- Token by token -----

  /** The feature row of a token, or -1 for text. */
  function RowAt(spans: seq<Span>, t: int): (row: int) {
    if spans == [] then -1 else
      var n := |spans| - 1;
      if spans[n].start <= t < spans[n].end then spans[n].rowStart + t - spans[n].start else RowAt(spans[..n], t)
  }

  /** A token has a row exactly when it lies in a span, and it is the span's own. */
  lemma {:induction false} RowIsOwn(spans: seq<Span>, t: int, rows: nat)
    requires Sorted(spans, rows)
    ensures RowAt(spans, t) >= 0 <==> exists i :: 0 <= i < |spans| && spans[i].start <= t < spans[i].end
    ensures forall i :: 0 <= i < |spans| && spans[i].start <= t < spans[i].end ==>
        RowAt(spans, t) == spans[i].rowStart + t - spans[i].start
    ensures RowAt(spans, t) < rows || spans == []
  {
    if i :| 0 <= i < |spans| && spans[i].start <= t < spans[i].end {
      forall k | 0 <= k < |spans| && spans[k].start <= t < spans[k].end
        ensures RowAt(spans, t) == spans[k].rowStart + t - spans[k].start
      {
        RowInSpan(spans, t, k, rows);
      }
    } else {
      NoneIsText(spans, t);
    }
  }

  lemma {:induction false} RowInSpan(spans: seq<Span>, t: int, i: nat, rows: nat)
    requires Sorted(spans, rows) && i < |spans| && spans[i].start <= t < spans[i].end
    ensures RowAt(spans, t) == spans[i].rowStart + t - spans[i].start
  {
    var n := |spans| - 1;
    if i < n {
      SortedPrefix(spans, rows, n);
      assert spans[i].end <= spans[n].start;
      hide Sorted;
      RowInSpan(spans[..n], t, i, rows);
    }
  }

  /** The image tokens of `a..b`, in order. */
  function Tokens(spans: seq<Span>, a: nat, b: nat): (r: seq<nat>)
    decreases b
  {
    if b <= a then [] else
      Tokens(spans, a, b - 1) + if RowAt(spans, b - 1) >= 0 then [b - 1] else []
  }

  lemma {:induction false} TokensAre(spans: seq<Span>, a: nat, b: nat)
    ensures forall t :: t in Tokens(spans, a, b) <==> a <= t < b && RowAt(spans, t) >= 0
    ensures forall k, m :: 0 <= k < m < |Tokens(spans, a, b)| ==> Tokens(spans, a, b)[k] < Tokens(spans, a, b)[m]
    decreases b
  {
    if a < b {
      TokensAre(spans, a, b - 1);
      var before := Tokens(spans, a, b - 1);
      assert forall k :: 0 <= k < |before| ==> before[k] in before;
    }
  }

  lemma {:induction false} TokensSplit(spans: seq<Span>, a: nat, b: nat, c: nat)
    requires a <= b <= c
    ensures Tokens(spans, a, b) + Tokens(spans, b, c) == Tokens(spans, a, c)
    decreases c
  {
    if b < c { TokensSplit(spans, a, b, c - 1); }
  }

  // ----- Selecting a chunk -----

  function Range(a: nat, b: nat): (r: seq<nat>)
    ensures |r| == if a < b then b - a else 0
    ensures forall i :: 0 <= i < |r| ==> r[i] == a + i
  {
    seq<nat>(if a < b then b - a else 0, i requires 0 <= i => a + i)
  }

  /** Places of the image tokens of `a..b`, counted from `a`. */
  ghost function Places(spans: seq<Span>, a: nat, b: nat): (r: seq<nat>)
    ensures |r| == |Tokens(spans, a, b)| && forall i :: 0 <= i < |r| ==> r[i] + a == Tokens(spans, a, b)[i]
  {
    var tokens := Tokens(spans, a, b);
    TokenInside(spans, a, b);
    seq<nat>(|tokens|, i requires 0 <= i < |tokens| => tokens[i] - a)
  }

  lemma {:induction false} TokenInside(spans: seq<Span>, a: nat, b: nat)
    ensures forall i :: 0 <= i < |Tokens(spans, a, b)| ==>
        a <= Tokens(spans, a, b)[i] < b && RowAt(spans, Tokens(spans, a, b)[i]) >= 0
  {
    TokensAre(spans, a, b);
    var tokens := Tokens(spans, a, b);
    assert forall i :: 0 <= i < |tokens| ==> tokens[i] in tokens;
  }

  /** The feature rows of the image tokens of `a..b`. */
  ghost function Features<T>(features: seq<T>, spans: seq<Span>, a: nat, b: nat): (r: seq<T>)
    requires Sorted(spans, |features|)
    ensures |r| == |Tokens(spans, a, b)|
  {
    var tokens := Tokens(spans, a, b);
    TokenInside(spans, a, b);
    seq(|tokens|, i requires 0 <= i < |tokens| => (RowIsOwn(spans, tokens[i],
        |features|); features[RowAt(spans, tokens[i])]))
  }

  /** A span after all others gives rows to its own tokens only. */
  lemma {:induction false} RowAdds(spans: seq<Span>, s: Span, rows: nat, t: int)
    requires Sorted(spans + [s], rows)
    ensures RowAt(spans + [s], t) == if s.start <= t < s.end then s.rowStart + t - s.start else RowAt(spans, t)
    ensures s.start <= t ==> RowAt(spans, t) == -1
    ensures Sorted(spans, rows)
  {
    var all := spans + [s];
    assert all[..|spans|] == spans;
    forall i | 0 <= i < |spans| ensures spans[i] == all[i] && spans[i].end <= s.start {
      assert all[|spans|] == s;
    }
    if s.start <= t {
      RowIsOwn(spans, t, rows);
      NoneIsText(spans, t);
    }
  }

  lemma {:induction false} NoneIsText(spans: seq<Span>, t: int)
    requires forall i :: 0 <= i < |spans| ==> !(spans[i].start <= t < spans[i].end)
    ensures RowAt(spans, t) == -1
  {
    if spans != [] { NoneIsText(spans[..|spans| - 1], t); }
  }

  /** A span after all others adds its overlap with the chunk at the end. */
  lemma {:induction false} SpanAdds(spans: seq<Span>, s: Span, rows: nat, a: nat, b: nat)
    requires Sorted(spans + [s], rows) && a <= b
    ensures Tokens(spans + [s], a, b) == Tokens(spans, a, b) + Range(Max(a, s.start), Min(b, s.end))
    decreases b
  {
    assert (spans + [s])[|spans|] == s;
    assert s.start < s.end;
    if a < b {
      RowAdds(spans, s, rows, b - 1);
      LastToken(spans, a, b);
      LastToken(spans + [s], a, b);
      LastInRange(a, s.start, s.end, b);
      SpanAdds(spans, s, rows, a, b - 1);
      hide *;
    }
  }

  lemma {:induction false} LastToken(spans: seq<Span>, a: nat, b: nat)
    ensures a < b ==> Tokens(spans, a, b) == Tokens(spans, a, b - 1) + if RowAt(spans, b - 1) >= 0 then [b - 1] else []
  {
  }

  lemma {:induction false} LastInRange(a: nat, s: nat, e: nat, b: nat)
    ensures a < b && s < e ==>
      Range(Max(a, s), Min(b, e)) == Range(Max(a, s), Min(b - 1, e)) + if s <= b - 1 < e then [b - 1] else []
  {
  }

  /** What one more span adds to a chunk: its overlap's places, and the rows of that overlap. */
  lemma {:induction false} ChunkStep<T>(features: seq<T>, spans: seq<Span>, s: Span, a: nat, b: nat)
    requires Sorted(spans + [s], |features|) && a <= b
    ensures Sorted(spans, |features|)
    ensures var from, to := Max(a, s.start), Min(b, s.end);
            && Places(spans + [s], a, b) == Places(spans, a, b) + (if from < to then Range(from - a, to - a) else [])
            && (from < to ==> s.rowStart + to - s.start <= |features|)
            && Features(features, spans + [s], a, b) == Features(features, spans, a, b) +
               (if from < to then features[s.rowStart + from - s.start..s.rowStart + to - s.start] else [])
  {
    var all, from, to := spans + [s], Max(a, s.start), Min(b, s.end);
    RowAdds(spans, s, |features|, 0);
    assert all[|spans|] == s;
    assert s.rowEnd <= |features| && s.rowEnd - s.rowStart == s.end - s.start;
    SpanAdds(spans, s, |features|, a, b);
    var tokens, more := Tokens(spans, a, b), Tokens(all, a, b);
    hide Tokens, RowAt, Sorted;
    forall i | 0 <= i < |more|
      ensures Features(features, all, a, b)[i] ==
        if i < |tokens| then Features(features, spans, a, b)[i]
            else features[s.rowStart + from - s.start + i - |tokens|]
    {
      FeatureAt(features, all, a, b, i);
      RowAdds(spans, s, |features|, more[i]);
      if i < |tokens| { FeatureAt(features, spans, a, b, i); }
    }
    hide Features;
    PlacesStep(spans, s, a, b);
  }

  lemma {:induction false} PlacesStep(spans: seq<Span>, s: Span, a: nat, b: nat)
    requires Tokens(spans + [s], a, b) == Tokens(spans, a, b) + Range(Max(a, s.start), Min(b, s.end))
    ensures var from, to := Max(a, s.start), Min(b, s.end);
            Places(spans + [s], a, b) == Places(spans, a, b) + (if from < to then Range(from - a, to - a) else [])
  {
  }

  lemma {:induction false} FeatureAt<T>(features: seq<T>, spans: seq<Span>, a: nat, b: nat, i: nat)
    requires Sorted(spans, |features|) && i < |Tokens(spans, a, b)|
    ensures var t := Tokens(spans, a, b)[i];
            0 <= RowAt(spans, t) < |features| && Features(features, spans, a, b)[i] == features[RowAt(spans, t)]
  {
    TokenInside(spans, a, b);
    RowIsOwn(spans, Tokens(spans, a, b)[i], |features|);
  }

  /** Sets the listed places. */
  method Mark(indices: seq<nat>, n: nat) returns (mask: seq<bool>)
    requires forall k :: 0 <= k < |indices| ==> indices[k] < n
    ensures |mask| == n && forall i :: 0 <= i < n ==> (mask[i] <==> i in indices)
  {
    var marks := new bool[n](_ => false);
    for k := 0 to |indices|
      invariant forall i :: 0 <= i < n ==> (marks[i] <==> i in indices[..k])
    {
      marks[indices[k]] := true;
      assert indices[..k + 1] == indices[..k] + [indices[k]];
    }
    assert indices[..|indices|] == indices;
    mask := marks[..];
  }

  /** What a chunk ought to be: for every image token of the interval, its place and its own row. */
  ghost predicate IsChunk<T>(p: Plan<T>, start: nat, end: nat, c: Chunk<T>)
    requires Sorted(p.spans, |p.features|) && start <= end
  {
    && c.indices == Places(p.spans, start, end)
    && c.features == Features(p.features, p.spans, start, end)
    && |c.mask| == end - start
    && forall i :: 0 <= i < end - start ==> (c.mask[i] <==> RowAt(p.spans, start + i) >= 0)
  }

  /** What the first `n` spans give the chunk. */
  ghost predicate Gathered<T>(p: Plan<T>, n: nat, start: nat, end: nat, rows: seq<T>, indices: seq<nat>) {
    && n <= |p.spans| && Sorted(p.spans[..n], |p.features|)
    && indices == Places(p.spans[..n], start, end)
    && rows == Features(p.features, p.spans[..n], start, end)
  }

  lemma {:induction false} GatherStep<T>(p: Plan<T>, n: nat, start: nat, end: nat, rows: seq<T>, indices: seq<nat>)
    requires Sorted(p.spans, |p.features|) && n < |p.spans| && start <= end && Gathered(p, n, start, end, rows, indices)
    ensures var s := p.spans[n];
            var from, to := Max(start, s.start), Min(end, s.end);
            if from < to then
              && s.rowStart + to - s.start <= |p.features|
              && Gathered(p, n + 1, start, end,
                  rows + p.features[s.rowStart + from - s.start..s.rowStart + to - s.start],
                  indices + Range(from - start, to - start))
            else Gathered(p, n + 1, start, end, rows, indices)
  {
    assert p.spans[..n + 1] == p.spans[..n] + [p.spans[n]];
    SortedPrefix(p.spans, |p.features|, n + 1);
    hide Sorted, Places, Features, Tokens, Range;
    ChunkStep(p.features, p.spans[..n], p.spans[n], start, end);
    assert rows + [] == rows && indices + [] == indices;
  }

  lemma {:induction false} GatherEnds<T>(p: Plan<T>, start: nat, end: nat)
    ensures Gathered(p, 0, start, end, [], [])
    ensures p.spans[..|p.spans|] == p.spans
  {
    NoSpans(start, end);
    assert p.spans[..0] == [];
    NoRows(p.features, start, end);
  }

  /** The chunk of an interval, gathered span by span; fails only on a bad interval. */
  method Select<T>(p: Plan<T>, start: int, end: int) returns (r: Result<Chunk<T>, Error>)
    requires Sorted(p.spans, |p.features|)
    ensures r.Ok? <==> 0 <= start <= end
    ensures r.Ok? ==> IsChunk(p, start, end, r.value)
  {
    if start < 0 || end < start { return Err(BadInterval); }
    var rows: seq<T>, indices: seq<nat> := [], [];
    GatherEnds(p, start, end);
    hide Gathered, Sorted;
    for i := 0 to |p.spans|
      invariant Gathered(p, i, start, end, rows, indices)
    {
      var span := p.spans[i];
      var from, to := Max(start, span.start), Min(end, span.end);
      GatherStep(p, i, start, end, rows, indices);
      if from < to {
        var row := span.rowStart + from - span.start;
        rows := rows + p.features[row..row + to - from];
        indices := indices + Range(from - start, to - start);
      }
    }
    GatheredAll(p, start, end, rows, indices);
    var mask := Mark(indices, end - start);
    r := Ok(Chunk(rows, indices, mask));
    MaskedChunk(p, start, end, r.value);
  }

  lemma {:induction false} GatheredAll<T>(p: Plan<T>, start: nat, end: nat, rows: seq<T>, indices: seq<nat>)
    requires Sorted(p.spans, |p.features|) && Gathered(p, |p.spans|, start, end, rows, indices)
    ensures indices == Places(p.spans, start, end) && rows == Features(p.features, p.spans, start, end)
    ensures forall k :: 0 <= k < |indices| ==> start + indices[k] < end
  {
    assert p.spans[..|p.spans|] == p.spans;
    PlacesAre(p.spans, start, end);
  }

  lemma {:induction false} MaskedChunk<T>(p: Plan<T>, start: nat, end: nat, c: Chunk<T>)
    requires Sorted(p.spans, |p.features|) && start <= end
    requires c.indices == Places(p.spans, start, end) && c.features == Features(p.features, p.spans, start, end)
    requires |c.mask| == end - start && forall i :: 0 <= i < end - start ==> (c.mask[i] <==> i in c.indices)
    ensures IsChunk(p, start, end, c)
  {
    PlacesAre(p.spans, start, end);
  }

  lemma {:induction false} SortedPrefix(spans: seq<Span>, rows: nat, n: nat)
    requires Sorted(spans, rows) && n <= |spans|
    ensures Sorted(spans[..n], rows)
  {
  }

  lemma {:induction false} NoSpans(a: nat, b: nat)
    ensures Tokens([], a, b) == []
    decreases b
  {
    if a < b { NoSpans(a, b - 1); }
  }

  lemma {:induction false} PlacesAre(spans: seq<Span>, a: nat, b: nat)
    ensures forall i: nat :: i in Places(spans, a, b) <==> a + i < b && RowAt(spans, a + i) >= 0
    ensures forall k :: 0 <= k < |Places(spans, a, b)| ==> a + Places(spans, a, b)[k] < b
  {
    TokensAre(spans, a, b);
    TokenInside(spans, a, b);
    var tokens, places := Tokens(spans, a, b), Places(spans, a, b);
    forall i: nat | a + i < b && RowAt(spans, a + i) >= 0 ensures i in places {
      assert a + i in tokens;
      var k :| 0 <= k < |tokens| && tokens[k] == a + i;
      assert places[k] == i;
    }
  }

  // ----- Chunks of a prompt -----

  function Shift(indices: seq<nat>, offset: nat): (r: seq<nat>)
    ensures |r| == |indices| && forall i :: 0 <= i < |r| ==> r[i] == indices[i] + offset
  {
    seq<nat>(|indices|, i requires 0 <= i < |indices| => indices[i] + offset)
  }

  /** A chunk and the chunk after it, put together, are the chunk of both. */
  lemma {:induction false} ChunksJoin<T>(p: Plan<T>, a: nat, b: nat, c: nat, left: Chunk<T>, right: Chunk<T>)
    requires Sorted(p.spans, |p.features|) && a <= b <= c
    requires IsChunk(p, a, b, left) && IsChunk(p, b, c, right)
    ensures IsChunk(p, a, c, Chunk(left.features + right.features, left.indices + Shift(right.indices, b - a),
        left.mask + right.mask))
  {
    TokensSplit(p.spans, a, b, c);
    assert left.indices + Shift(right.indices, b - a) == Places(p.spans, a, c);
    assert left.features + right.features == Features(p.features, p.spans, a, c);
  }

  /** A token is masked exactly when it lies in a span, and the row given to it is its place in the
      span from the span's first row. */
  lemma {:induction false} ChunkIsExact<T>(p: Plan<T>, a: nat, b: nat, c: Chunk<T>, i: nat)
    requires Sorted(p.spans, |p.features|) && a <= b && IsChunk(p, a, b, c) && i < b - a
    ensures c.mask[i] <==> exists k :: 0 <= k < |p.spans| && p.spans[k].start <= a + i < p.spans[k].end
    ensures c.mask[i] <==> i in c.indices
    ensures |c.features| == |c.indices|
    ensures forall m, k ::
        0 <= m < |c.indices| && c.indices[m] == i && 0 <= k < |p.spans| &&
        p.spans[k].start <= a + i < p.spans[k].end ==>
              p.spans[k].rowStart + a + i - p.spans[k].start < |p.features| &&
              c.features[m] == p.features[p.spans[k].rowStart + a + i - p.spans[k].start]
  {
    RowIsOwn(p.spans, a + i, |p.features|);
    PlacesAre(p.spans, a, b);
  }

  ghost predicate EndBy(images: seq<Image>, length: nat) {
    forall i :: 0 <= i < |images| ==> images[i].end <= length
  }

  lemma {:induction false} Unappended(features: nat, images: seq<Image>, length: nat)
    requires Length(images) <= features && Ascending(images) && EndBy(images, length) && images != []
    ensures var n := |images| - 1;
            var s, before := images[n], Length(images[..n]);
            && Ascending(images[..n]) && EndBy(images[..n], length)
            && Length(images) == before + s.end - s.start
            && Mapped(images) == Mapped(images[..n]) + [Span(s.image, s.start, s.end, before, Length(images))]
            && s.end <= length
  {
  }

  /** The tokens of all spans take the feature rows from the first on, each once. */
  lemma {:induction false} AllRows<T>(features: seq<T>, images: seq<Image>, length: nat)
    requires Length(images) <= |features| && Ascending(images) && EndBy(images, length)
    ensures Sorted(Mapped(images), |features|)
    ensures Features(features, Mapped(images), 0, length) == features[..Length(images)]
  {
    MappedSorted(images);
    SortedInMore(Mapped(images), Length(images), |features|);
    if images == [] {
      NoRows(features, 0, length);
    } else {
      var n := |images| - 1;
      Unappended(|features|, images, length);
      AllRows(features, images[..n], length);
      hide *;
      LastRows(features, Mapped(images[..n]), images[n], Length(images[..n]), Length(images), length);
    }
  }

  lemma {:induction false} NoRows<T>(features: seq<T>, a: nat, b: nat)
    ensures Features(features, [], a, b) == [] && Places([], a, b) == []
  {
    NoSpans(a, b);
  }

  lemma {:induction false} LastRows<T>(features: seq<T>, spans: seq<Span>, s: Image, row: nat, next: nat, length: nat)
    requires s.end <= length && row + s.end - s.start == next <= |features|
    requires Sorted(spans + [Span(s.image, s.start, s.end, row, next)], |features|) && Sorted(spans, |features|)
    requires Features(features, spans, 0, length) == features[..row]
    ensures Features(features, spans + [Span(s.image, s.start, s.end, row, next)], 0, length) == features[..next]
  {
    hide *;
    var last := Span(s.image, s.start, s.end, row, next);
    assert last.rowStart == row && last.rowEnd == next;
    assert Features(features, spans + [last], 0, length) == features[..row] + features[row..next] by {
      WholeSpan(features, spans, last, length);
    }
    assert features[..row] + features[row..next] == features[..next];
  }

  /** A span inside the prompt adds all of its rows. */
  lemma {:induction false} WholeSpan<T>(features: seq<T>, spans: seq<Span>, s: Span, length: nat)
    requires Sorted(spans + [s], |features|) && Sorted(spans, |features|) && s.start < s.end <= length &&
        s.rowStart <= s.rowEnd <= |features|
    requires s.rowEnd - s.rowStart == s.end - s.start
    ensures Features(features, spans + [s], 0, length) == Features(features, spans, 0,
        length) + features[s.rowStart..s.rowEnd]
  {
    ChunkStep(features, spans, s, 0, length);
    WholeOverlap(s, length);
    hide *;
  }

  lemma {:induction false} WholeOverlap(s: Span, length: nat)
    requires s.start < s.end <= length && s.rowEnd - s.rowStart == s.end - s.start
    ensures Max(0, s.start) < Min(length, s.end)
    ensures s.rowStart + Max(0, s.start) - s.start == s.rowStart &&
        s.rowStart + Min(length, s.end) - s.start == s.rowEnd
  {
  }

  lemma {:induction false} SortedInMore(spans: seq<Span>, rows: nat, more: nat)
    ensures rows <= more ==> (Sorted(spans, rows) ==> Sorted(spans, more))
  {
  }

  /** The chunks of consecutive cut points. */
  ghost predicate AreChunks<T>(p: Plan<T>, cuts: seq<nat>, chunks: seq<Chunk<T>>)
    requires Sorted(p.spans, |p.features|)
  {
    && |cuts| == |chunks| + 1
    && forall i {:trigger chunks[i]} :: 0 <= i < |chunks| ==>
        cuts[i] <= cuts[i + 1] && IsChunk(p, cuts[i], cuts[i + 1], chunks[i])
  }

  function AllFeatures<T>(chunks: seq<Chunk<T>>): seq<T> {
    if chunks == [] then [] else AllFeatures(chunks[..|chunks| - 1]) + chunks[|chunks| - 1].features
  }

  lemma {:induction false} ChunksAreOne<T>(p: Plan<T>, cuts: seq<nat>, chunks: seq<Chunk<T>>)
    requires Sorted(p.spans, |p.features|) && AreChunks(p, cuts, chunks)
    ensures cuts[0] <= cuts[|chunks|]
    ensures AllFeatures(chunks) == Features(p.features, p.spans, cuts[0], cuts[|chunks|])
  {
    if chunks != [] {
      var n := |chunks| - 1;
      assert IsChunk(p, cuts[n], cuts[n + 1], chunks[n]);
      var prefix := cuts[..n + 1];
      forall i | 0 <= i < n ensures prefix[i] <= prefix[i + 1] && IsChunk(p, prefix[i], prefix[i + 1], chunks[..n][i]) {
        assert chunks[..n][i] == chunks[i] && prefix[i] == cuts[i] && prefix[i + 1] == cuts[i + 1];
      }
      ChunksAreOne(p, prefix, chunks[..n]);
      FeaturesJoin(p.features, p.spans, cuts[0], cuts[n], cuts[n + 1]);
      hide Sorted, Features, AreChunks;
    }
  }

  lemma {:induction false} FeaturesJoin<T>(features: seq<T>, spans: seq<Span>, a: nat, b: nat, c: nat)
    requires Sorted(spans, |features|) && a <= b <= c
    ensures Features(features, spans, a, c) == Features(features, spans, a, b) + Features(features, spans, b, c)
  {
    TokensSplit(spans, a, b, c);
    hide Sorted, Tokens, RowAt;
  }

  /** However a prompt is cut into prefill chunks, the rows they scatter are the vision features,
      each once and in order. */
  lemma {:induction false} EveryRowOnce<T>(features: seq<T>, images: seq<Image>, cuts: seq<nat>, chunks: seq<Chunk<T>>)
    requires Length(images) == |features| && Ascending(images)
    requires Sorted(Mapped(images), |features|) && AreChunks(Plan(features, Mapped(images)), cuts, chunks)
    requires cuts[0] == 0 && EndBy(images, cuts[|chunks|])
    ensures AllFeatures(chunks) == features
  {
    ChunksAreOne(Plan(features, Mapped(images)), cuts, chunks);
    AllRows(features, images, cuts[|chunks|]);
    assert features[..|features|] == features;
  }

  // ----- Grids -----

  const MAX_VISION_PATCHES := 65536
  const MAX_IMAGE_TOKENS := 16384

  datatype Grid = Grid(t: int, h: int, w: int)

  datatype Totals = Totals(patches: int, tokens: int) | BadMerge | BadGrid(index: nat) | TooManyPatches | TooManyTokens

  predicate Divisible(g: Grid, merge: Pos)
  {
    0 < g.t && 0 < g.h && 0 < g.w && g.h % merge == 0 && g.w % merge == 0
  }

  function Product(a: int, b: int, c: int): int { a * b * c }

  function Patches(grids: seq<Grid>): int {
    if grids == [] then 0 else
      var g := grids[|grids| - 1];
      Patches(grids[..|grids| - 1]) + Product(g.t, g.h, g.w)
  }

  function MergedTokens(grids: seq<Grid>, merge: Pos): int
  {
    if grids == [] then 0 else
      var g := grids[|grids| - 1];
      MergedTokens(grids[..|grids| - 1], merge) + Product(g.t, g.h / merge, g.w / merge)
  }

  /** Each grid adds its patches, and its patches merged along both sides. */
  lemma {:induction false} GridAdds(grids: seq<Grid>, g: Grid, merge: Pos)
    ensures Patches([]) == 0 && MergedTokens([], merge) == 0
    ensures Patches(grids + [g]) == Patches(grids) + g.t * g.h * g.w
    ensures MergedTokens(grids + [g], merge) == MergedTokens(grids, merge) + g.t * (g.h / merge) * (g.w / merge)
  {
    assert (grids + [g])[..|grids|] == grids;
  }

  lemma {:induction false} ProductMerged(t: int, h: int, w: int, merge: int)
    requires 0 < t && 0 < h && 0 < w && 0 < merge && h % merge == 0 && w % merge == 0
    ensures Product(t, h, w) == merge * merge * Product(t, h / merge, w / merge)
    ensures 0 <= Product(t, h / merge, w / merge) && 0 <= Product(t, h, w)
  {
    var a, b := h / merge, w / merge;
    assert h == a * merge && w == b * merge;
    assert a >= 0 && b >= 0;
    calc {
      t * h * w;
      t * (a * merge) * (b * merge);
      merge * merge * (t * a * b);
    }
    Nonneg(t, a);
    Nonneg(t * a, b);
    Nonneg(t, h);
    Nonneg(t * h, w);
  }

  lemma {:induction false} Nonneg(a: nat, b: nat)
    ensures 0 <= a * b
  {
  }

  /** Every merged token stands for `merge * merge` patches. */
  lemma {:induction false} PatchesAreMerged(grids: seq<Grid>, merge: int)
    requires 0 < merge && forall i :: 0 <= i < |grids| ==> Divisible(grids[i], merge)
    ensures Patches(grids) == merge * merge * MergedTokens(grids, merge)
    ensures 0 <= MergedTokens(grids, merge) && 0 <= Patches(grids)
  {
    if grids != [] {
      var n := |grids| - 1;
      var g := grids[n];
      PatchesAreMerged(grids[..n], merge);
      assert Divisible(g, merge);
      ProductMerged(g.t, g.h, g.w, merge);
      var x, y, z := MergedTokens(grids[..n], merge), Product(g.t, g.h / merge, g.w / merge), merge * merge;
      assert z * x + z * y == z * (x + y);
    }
  }

  /** At the fixed merge of two both limits are the same limit. */
  lemma {:induction false} LimitsMeet(grids: seq<Grid>)
    requires forall i :: 0 <= i < |grids| ==> Divisible(grids[i], 2)
    ensures Patches(grids) <= MAX_VISION_PATCHES <==> MergedTokens(grids, 2) <= MAX_IMAGE_TOKENS
  {
    PatchesAreMerged(grids, 2);
  }

  lemma {:induction false} TotalsGrow(grids: seq<Grid>, merge: int, n: nat)
    requires 0 < merge && n <= |grids| && forall i :: 0 <= i < |grids| ==> Divisible(grids[i], merge)
    ensures Patches(grids[..n]) <= Patches(grids) && MergedTokens(grids[..n], merge) <= MergedTokens(grids, merge)
  {
    if n == |grids| {
      assert grids[..n] == grids;
    } else {
      var m := |grids| - 1;
      assert Divisible(grids[m], merge);
      ProductMerged(grids[m].t, grids[m].h, grids[m].w, merge);
      assert grids[..m][..n] == grids[..n];
      TotalsGrow(grids[..m], merge, n);
    }
  }

  /** Totals come out exactly when every grid divides and both sums are within their limits. */
  method GridTotals(grids: seq<Grid>, merge: int) returns (r: Totals)
    ensures r.BadMerge? <==> merge <= 0
    ensures r.Totals? ==> merge > 0 && r == Totals(Patches(grids), MergedTokens(grids, merge))
    ensures r.Totals? <==> (
      && merge > 0 && Patches(grids) <= 65536 && MergedTokens(grids, merge) <= 16384
      && forall i :: 0 <= i < |grids| ==>
          0 < grids[i].t && 0 < grids[i].h && 0 < grids[i].w && grids[i].h % merge == 0 && grids[i].w % merge == 0)
    ensures r.TooManyPatches? ==> exists k :: 0 <= k <= |grids| && 65536 < Patches(grids[..k])
    ensures r.TooManyTokens? ==> (
      && merge > 0
      && exists k :: 0 <= k <= |grids| && Patches(grids[..k]) <= 65536 && 16384 < MergedTokens(grids[..k], merge))
    ensures r.BadGrid? ==> merge > 0 && r.index < |grids|
    ensures r.BadGrid? ==>
      var g := grids[r.index];
      !(0 < g.t && 0 < g.h && 0 < g.w && g.h % merge == 0 && g.w % merge == 0)
  {
    if merge <= 0 { return BadMerge; }
    var patches, tokens := 0, 0;
    hide Product;
    for i := 0 to |grids|
      invariant patches == Patches(grids[..i]) <= MAX_VISION_PATCHES
      invariant tokens == MergedTokens(grids[..i], merge) <= MAX_IMAGE_TOKENS
      invariant forall j :: 0 <= j < i ==> Divisible(grids[j], merge)
    {
      var g := grids[i];
      var fits := Divisible(g, merge);
      if !fits { return BadGrid(i); }
      assert grids[..i + 1][..i] == grids[..i];
      patches := patches + Product(g.t, g.h, g.w);
      tokens := tokens + Product(g.t, g.h / merge, g.w / merge);
      if patches > MAX_VISION_PATCHES || tokens > MAX_IMAGE_TOKENS {
        if forall j :: 0 <= j < |grids| ==> Divisible(grids[j], merge) { TotalsGrow(grids, merge, i + 1); }
        return if patches > MAX_VISION_PATCHES then TooManyPatches else TooManyTokens;
      }
    }
    assert grids[..|grids|] == grids;
    r := Totals(patches, tokens);
  }
}
