/** Layers that share an index selection: a full layer selects, the layers after it use what it
    selected, and only one selection is kept at a time. */
module IndexShare {

  /** The last full layer not after `l`. */
  ghost predicate Leads(full: seq<bool>, lead: nat, l: nat) {
    lead <= l < |full| && full[lead] && forall j :: lead < j <= l ==> !full[j]
  }

  function CountFull(full: seq<bool>, n: nat): (c: nat)
    requires n <= |full|
    ensures c <= n
  {
    if n == 0 then 0 else CountFull(full, n - 1) + if full[n - 1] then 1 else 0
  }

  lemma {:induction false} CountStep(full: seq<bool>, n: nat)
    ensures CountFull(full, 0) == 0
    ensures n < |full| ==> CountFull(full, n + 1) == CountFull(full, n) + if full[n] then 1 else 0
  {
  }

  /** The full layers below `n` have slots, numbered in layer order. */
  ghost predicate SlotsSo(full: seq<bool>, n: nat, slot: map<int, int>) {
    && n <= |full| && |slot| == CountFull(full, n)
    && (forall l :: l in slot <==> 0 <= l < n && full[l])
    && (forall l :: l in slot ==> 0 <= l && slot[l] == CountFull(full, l))
  }

  function WithSlot(slot: map<int, int>, l: nat): map<int, int> { slot[l := |slot|] }

  lemma {:induction false} SlotStep(full: seq<bool>, n: nat, slot: map<int, int>)
    requires n < |full| && SlotsSo(full, n, slot)
    ensures full[n] ==> SlotsSo(full, n + 1, WithSlot(slot, n))
    ensures !full[n] ==> SlotsSo(full, n + 1, slot)
  {
    CountStep(full, n);
    hide CountFull;
  }

  /** What the loop knows after `n` layers: the leader of each, the last one's at hand. */
  ghost predicate LeadersSo(full: seq<bool>, n: nat, lead: nat, leader: seq<nat>) {
    && n == |leader| <= |full|
    && (n > 0 ==> full[0] && lead == leader[n - 1])
    && forall l :: 0 <= l < n ==> Leads(full, leader[l], l)
  }

  lemma {:induction false} LeadStep(full: seq<bool>, n: nat, lead: nat, leader: seq<nat>)
    requires n < |full| && LeadersSo(full, n, lead, leader)
    ensures full[n] ==> LeadersSo(full, n + 1, n, leader + [n])
    ensures !full[n] && n > 0 ==> LeadersSo(full, n + 1, lead, leader + [lead])
  {
    if n > 0 { assert Leads(full, leader[n - 1], n - 1); }
  }

  lemma {:induction false} NoLayers(full: seq<bool>, lead: nat)
    ensures LeadersSo(full, 0, lead, []) && SlotsSo(full, 0, map[])
  {
    CountStep(full, 0);
  }

  lemma {:induction false} FirstIsFull(full: seq<bool>, n: nat, lead: nat, leader: seq<nat>)
    ensures LeadersSo(full, n, lead, leader) ==> (n > 0 ==> full[0])
  {
  }

  /** Leaders and index-pool slots of the served layers; fails unless the first layer is full. */
  method BuildLeaders(full: seq<bool>) returns (ok: bool, lead: nat, leader: seq<nat>, slot: map<int, int>)
    ensures ok <==> |full| == 0 || full[0]
    ensures ok ==> LeadersSo(full, |full|, lead, leader)
    ensures ok ==> SlotsSo(full, |full|, slot)
  {
    lead, leader, slot := 0, [], map[];
    var l := 0;
    NoLayers(full, lead);
    hide *;
    while l < |full|
      invariant l <= |full| && LeadersSo(full, l, lead, leader) && SlotsSo(full, l, slot)
    {
      LeadStep(full, l, lead, leader);
      SlotStep(full, l, slot);
      FirstIsFull(full, l, lead, leader);
      if full[l] {
        lead := l;
        slot := WithSlot(slot, l);
      } else if l == 0 {
        return false, lead, leader, slot;
      }
      leader := leader + [lead];
      l := l + 1;
    }
    FirstIsFull(full, l, lead, leader);
    return true, lead, leader, slot;
  }

  lemma {:induction false} CountGrows(full: seq<bool>, a: nat, b: nat)
    requires a < b <= |full| && full[a]
    ensures CountFull(full, a) < CountFull(full, b)
  {
    if a + 1 < b { CountGrows(full, a, b - 1); }
  }

  /** No two full layers write the same slot, and the slots are those of a pool that has one per
      full layer. */
  lemma {:induction false} SlotsApart(full: seq<bool>, a: nat, b: nat)
    requires a < |full| && b < |full| && full[a] && full[b]
    ensures CountFull(full, a) < CountFull(full, |full|)
    ensures CountFull(full, a) == CountFull(full, b) <==> a == b
  {
    CountGrows(full, a, |full|);
    if a < b { CountGrows(full, a, b); }
    if b < a { CountGrows(full, b, a); }
  }

  /** The kept selections when layer `l` attends: a full layer replaces them by its own. */
  function Kept<S>(full: seq<bool>, made: nat -> S, l: nat, before: map<nat, S>): map<nat, S>
    requires l < |full|
  {
    var prev := if l == 0 then before else Kept(full, made, l - 1, before);
    if full[l] then map[l := made(l)] else prev
  }

  /** Every layer of a pass finds its leader's selection of that pass, and nothing older. */
  lemma {:induction false} LeaderIsLive<S>(full: seq<bool>, made: nat -> S, before: map<nat, S>, l: nat, lead: nat)
    requires l < |full| && full[0] && Leads(full, lead, l)
    ensures Kept(full, made, l, before) == map[lead := made(lead)]
  {
    if lead < l {
      LeaderIsLive(full, made, before, l - 1, lead);
    }
  }
}
