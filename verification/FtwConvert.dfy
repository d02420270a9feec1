/** Converting expert banks: the streaming sink that writes completed layers in any order, and why
    the loader cannot tell its output from a flat bank. */
module FtwConvert {
  import opened Basics
  import opened FtwFormat
  import opened FtwWriter
  import opened FtwLoad
  import opened FtwBanks
  import opened LayerNames

  // ----- The streaming sink -----

  function LayerEntryOf(bank: Tensor, layer: nat): Tensor {
    bank.(name := LayerEntryName(bank.name, layer), kind := BANK_KIND)
  }

  /** The entries one completed layer becomes: its banks in dictionary order, renamed. */
  function Renamed(layer: nat, banks: seq<Tensor>): (ts: seq<Tensor>)
    ensures |ts| == |banks|
    ensures forall i :: 0 <= i < |banks| ==> ts[i] == LayerEntryOf(banks[i], layer)
  {
    if banks == [] then [] else
      Renamed(layer, banks[..|banks| - 1]) + [LayerEntryOf(banks[|banks| - 1], layer)]
  }

  function TotalBytes(banks: seq<Tensor>): nat {
    if banks == [] then 0 else TotalBytes(banks[..|banks| - 1]) + |banks[|banks| - 1].bytes|
  }

  lemma {:induction false} Regroup(a: seq<Tensor>, b: seq<Tensor>, c: seq<Tensor>)
    ensures a + b + c == a + (b + c) && a + [] == a
  {
  }

  lemma {:induction false} OneMoreBank(layer: nat, banks: seq<Tensor>, i: nat)
    requires i <= |banks|
    ensures i < |banks| ==>
        Renamed(layer, banks[..i + 1]) == Renamed(layer, banks[..i]) + [LayerEntryOf(banks[i], layer)]
    ensures i < |banks| ==> TotalBytes(banks[..i + 1]) == TotalBytes(banks[..i]) + |banks[i].bytes|
    ensures Renamed(layer, banks[..0]) == [] && TotalBytes(banks[..0]) == 0
  {
    if i < |banks| {
      assert banks[..i + 1][..i] == banks[..i];
    }
  }

  lemma {:induction false} NoBankWritten(before: seq<Tensor>, layer: nat, banks: seq<Tensor>)
    ensures before + Renamed(layer, banks[..0]) == before && TotalBytes(banks[..0]) == 0
    ensures banks[..|banks|] == banks
  {
  }

  lemma {:induction false} NextBank(before: seq<Tensor>, layer: nat, banks: seq<Tensor>, i: nat)
    requires i < |banks|
    ensures before + Renamed(layer, banks[..i]) + [LayerEntryOf(banks[i], layer)] == before + Renamed(layer,
        banks[..i + 1])
    ensures TotalBytes(banks[..i + 1]) == TotalBytes(banks[..i]) + |banks[i].bytes|
  {
    OneMoreBank(layer, banks, i);
    Regroup(before, Renamed(layer, banks[..i]), [LayerEntryOf(banks[i], layer)]);
  }

  class ConvertSink {
    const writer: FTWWriter
    var seen: set<nat>
    var nWritten: nat
    var nBytes: nat

    constructor (writer: FTWWriter)
      ensures this.writer == writer && seen == {} && nWritten == nBytes == 0
    {
      this.writer := writer;
      seen, nWritten, nBytes := {}, 0, 0;
    }

    /** The write loop of one callback. */
    method WriteBanks(layer: nat, banks: seq<Tensor>) returns (nbytes: nat)
      requires writer.Valid()
      modifies `nWritten, writer
      ensures writer.Valid() && writer.written == old(writer.written) + Renamed(layer, banks)
      ensures nWritten == old(nWritten) + |banks| && nbytes == TotalBytes(banks)
    {
      ghost var before, count := writer.written, nWritten;
      nbytes := 0;
      NoBankWritten(before, layer, banks);
      hide *;
      for i := 0 to |banks|
        invariant writer.Valid() && writer.written == before + Renamed(layer, banks[..i])
        invariant nWritten == count + i && nbytes == TotalBytes(banks[..i])
      {
        NextBank(before, layer, banks, i);
        WriteBank(layer, banks[i]);
        nbytes := nbytes + |banks[i].bytes|;
      }
    }

    method WriteBank(layer: nat, bank: Tensor)
      requires writer.Valid()
      modifies `nWritten, writer
      ensures writer.Valid() && writer.written == old(writer.written) + [LayerEntryOf(bank, layer)] &&
          nWritten == old(nWritten) + 1
    {
      hide *;
      writer.AddTensor(LayerEntryOf(bank, layer));
      nWritten := nWritten + 1;
    }

    /** A completed layer goes out as one entry per bank; a layer that comes twice is refused. */
    method LayerDone(layer: nat, banks: seq<Tensor>) returns (ok: bool)
      requires writer.Valid()
      modifies this, writer
      ensures writer.Valid() && (ok <==> layer !in old(seen))
      ensures !ok ==> unchanged(this) && unchanged(writer)
      ensures ok ==> seen == old(seen) + {layer} && writer.written == old(writer.written) + Renamed(layer, banks)
      ensures ok ==> nWritten == old(nWritten) + |banks| && nBytes == old(nBytes) + TotalBytes(banks)
    {
      if layer in seen {
        return false;
      }
      hide *;
      seen := seen + {layer};
      var nbytes := WriteBanks(layer, banks);
      nBytes := nBytes + nbytes;
      return true;
    }
  }

  /** One completion callback. */
  datatype Call = Call(layer: nat, banks: seq<Tensor>)

  function Streamed(calls: seq<Call>): seq<Tensor> {
    if calls == [] then [] else
      Streamed(calls[..|calls| - 1]) + Renamed(calls[|calls| - 1].layer, calls[|calls| - 1].banks)
  }

  /** Where bank `i` of call `c` lands among the streamed tensors. */
  function Place(calls: seq<Call>, c: nat, i: nat): nat
    requires c < |calls|
  {
    |Streamed(calls[..c])| + i
  }

  lemma {:induction false} StreamedAt(calls: seq<Call>, c: nat, i: nat)
    requires c < |calls| && i < |calls[c].banks|
    ensures Place(calls, c, i) < |Streamed(calls)|
    ensures Streamed(calls)[Place(calls, c, i)] == LayerEntryOf(calls[c].banks[i], calls[c].layer)
  {
    hide LayerEntryOf;
    var front := calls[..|calls| - 1];
    if c < |front| {
      StreamedAt(front, c, i);
      assert front[..c] == calls[..c];
    }
  }

  lemma {:induction false} StreamedFrom(calls: seq<Call>, j: nat) returns (c: nat, i: nat)
    requires j < |Streamed(calls)|
    ensures c < |calls| && i < |calls[c].banks| && j == Place(calls, c, i)
  {
    hide LayerEntryOf, Renamed;
    var front := calls[..|calls| - 1];
    if j < |Streamed(front)| {
      c, i := StreamedFrom(front, j);
      assert front[..c] == calls[..c];
    } else {
      c, i := |front|, j - |Streamed(front)|;
    }
  }

  /** Every layer completes once, and bank names can be read back and differ within a layer. */
  ghost predicate ValidStream(calls: seq<Call>) {
    && (forall c :: 0 <= c < |calls| ==> calls[c].layer < 100000)
    && (forall c, d :: 0 <= c < d < |calls| ==> calls[c].layer != calls[d].layer)
    && (forall c, i :: 0 <= c < |calls| && 0 <= i < |calls[c].banks| ==>
        calls[c].banks[i].name != "" && '\n' !in calls[c].banks[i].name)
    && (forall c, i, j :: 0 <= c < |calls| && 0 <= i < j < |calls[c].banks| ==>
        calls[c].banks[i].name != calls[c].banks[j].name)
  }

  lemma {:induction false} AlphaHasNoHash(bank: string, layer: nat)
    ensures !IsAlpha(LayerEntryName(bank, layer))
  {
    assert LayerEntryName(bank, layer)[|bank|] == '#';
  }

  lemma {:induction false} StreamedName(calls: seq<Call>, c: nat, i: nat)
    requires ValidStream(calls) && c < |calls| && i < |calls[c].banks|
    ensures var t := LayerEntryOf(calls[c].banks[i], calls[c].layer);
      MatchEntry(t.name) == Some((calls[c].banks[i].name, calls[c].layer)) && !IsAlpha(t.name) && t.kind == BANK_KIND
  {
    NameReadsBackIff(calls[c].banks[i].name, calls[c].layer);
    AlphaHasNoHash(calls[c].banks[i].name, calls[c].layer);
  }

  lemma {:induction false} NamesDiffer(calls: seq<Call>, c: nat, i: nat, d: nat, j: nat)
    requires ValidStream(calls) && c < |calls| && i < |calls[c].banks| && d < |calls| && j < |calls[d].banks|
    requires calls[c].banks[i].name == calls[d].banks[j].name && calls[c].layer == calls[d].layer
    ensures c == d && i == j
  {
  }

  /** Whatever was written before and in whatever order the layers completed, with only alpha
      vectors after them, the loader finds every streamed bank layer and gets back its bytes. */
  lemma {:induction false} AnyOrderFound(pre: seq<Tensor>, calls: seq<Call>, post: seq<Tensor>, c: nat, i: nat)
    requires ValidStream(calls) && c < |calls| && i < |calls[c].banks|
    requires forall k :: 0 <= k < |post| ==> IsAlpha(post[k].name)
    ensures var ts := pre + Streamed(calls) + post;
      var g, bank, layer := Group(Entries(ts)), calls[c].banks[i], calls[c].layer;
      && bank.name in g.perLayer && layer in g.perLayer[bank.name]
      && var e := g.perLayer[bank.name][layer];
      && e == EntryAt(LayerEntryOf(bank, layer), e.off)
      && Carved(Region(ts), e.off, e.nbytes) == bank.bytes
  {
    hide MatchEntry, LayerEntryName, Region, Entries, Group, Streamed, Renamed, IsAlpha, ValidStream;
    var ts := pre + Streamed(calls) + post;
    var es, k := Entries(ts), |pre| + Place(calls, c, i);
    var bank, layer := calls[c].banks[i], calls[c].layer;
    StreamedAt(calls, c, i);
    StreamedName(calls, c, i);
    EntryLocatesTensor(ts, k);
    forall j | k < j < |es| && IsRow(es[j]) ensures MatchEntry(es[j].name) != Some((bank.name, layer)) {
      LaterNamesDiffer(pre, calls, post, c, i, j);
    }
    GroupFindsLayer(es, k, bank.name, layer);
  }

  lemma {:induction false} LaterNamesDiffer(pre: seq<Tensor>, calls: seq<Call>, post: seq<Tensor>, c: nat, i: nat,
        j: nat)
    requires ValidStream(calls) && c < |calls| && i < |calls[c].banks|
    requires forall k :: 0 <= k < |post| ==> IsAlpha(post[k].name)
    requires |pre| + Place(calls, c, i) < j < |pre + Streamed(calls) + post|
    ensures var e := Entries(pre + Streamed(calls) + post)[j];
      IsRow(e) ==> MatchEntry(e.name) != Some((calls[c].banks[i].name, calls[c].layer))
  {
    hide MatchEntry, LayerEntryName, Region, Entries, Group, Streamed, Renamed;
    var ts := pre + Streamed(calls) + post;
    EntryLocatesTensor(ts, j);
    var place := j - |pre|;
    if place < |Streamed(calls)| {
      var d, m := StreamedFrom(calls, place);
      StreamedAt(calls, d, m);
      StreamedName(calls, d, m);
      if calls[d].banks[m].name == calls[c].banks[i].name && calls[d].layer == calls[c].layer {
        NamesDiffer(calls, c, i, d, m);
        assert false;
      }
    } else {
      assert ts[j] == post[place - |Streamed(calls)|];
    }
  }
}
