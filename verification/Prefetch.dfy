/** The prefetching weight iterator: a producer thread reads entries into a bounded queue, the
    consumer yields them, may stop at any point, and then joins the producer. */
module Prefetch {

  datatype Item = Tensor(i: nat) | Done

  /** Producer positions. `armed` means that it has seen the cancel flag clear and is inside a
      timed put; the flag may be set while it is there. */
  datatype Producer =
    | Reading(i: nat)
    | Putting(i: nat, armed: bool)
    | PuttingDone(armed: bool)
    | Exited

  /** `drained` records whether the consumer saw the end marker or stopped early. */
  datatype Consumer =
    | Getting
    | Yielding
    | Stopping(drained: bool)
    | Joining(drained: bool)
    | Ended(drained: bool)

  datatype Failure = NoFailure | FailedAt(i: nat)

  datatype State = State(prod: Producer, cons: Consumer, queue: seq<Item>, cancel: bool, err: Failure,
      yielded: seq<nat>)

  datatype Step =
    | ReadOk | ReadFails | LoopEnds | Check | Put | TimesOut | GivesUp
    | Get | Resume | Close | Cancel | Join

  const INITIAL := State(Reading(0), Getting, [], false, NoFailure, [])

  function Capacity(prefetch: int): nat { if prefetch < 1 then 1 else prefetch }

  predicate IsPutting(p: Producer) { p.Putting? || p.PuttingDone? }

  predicate Enabled(s: State, step: Step, n: nat, cap: nat) {
    match step
    case ReadOk => s.prod.Reading? && s.prod.i < n
    case ReadFails => s.prod.Reading? && s.prod.i < n
    case LoopEnds => s.prod.Reading? && s.prod.i >= n
    case Check => IsPutting(s.prod) && !s.prod.armed && !s.cancel
    case Put => IsPutting(s.prod) && s.prod.armed && |s.queue| < cap
    case TimesOut => IsPutting(s.prod) && s.prod.armed && |s.queue| >= cap
    case GivesUp => IsPutting(s.prod) && !s.prod.armed && s.cancel
    case Get => s.cons.Getting? && s.queue != []
    case Resume => s.cons.Yielding?
    case Close => s.cons.Yielding?
    case Cancel => s.cons.Stopping?
    case Join => s.cons.Joining? && s.prod.Exited?
  }

  function Apply(s: State, step: Step, n: nat, cap: nat): State
    requires Enabled(s, step, n, cap)
  {
    match step
    case ReadOk => s.(prod := Putting(s.prod.i, false))
    case ReadFails => s.(prod := PuttingDone(false), err := FailedAt(s.prod.i))
    case LoopEnds => s.(prod := PuttingDone(false))
    case Check => s.(prod := s.prod.(armed := true))
    case Put =>
      if s.prod.Putting? then s.(prod := Reading(s.prod.i + 1), queue := s.queue + [Tensor(s.prod.i)])
      else s.(prod := Exited, queue := s.queue + [Done])
    case TimesOut => s.(prod := s.prod.(armed := false))
    case GivesUp => s.(prod := if s.prod.Putting? then PuttingDone(false) else Exited)
    case Get =>
      if s.queue[0].Tensor? then s.(cons := Yielding, queue := s.queue[1..], yielded := s.yielded + [s.queue[0].i])
      else s.(cons := Stopping(true), queue := s.queue[1..])
    case Resume => s.(cons := Getting)
    case Close => s.(cons := Stopping(false))
    case Cancel => s.(cons := Joining(s.cons.drained), cancel := true)
    case Join => s.(cons := Ended(s.cons.drained))
  }

  /** `s` is reached from `from` by the given steps. */
  predicate Runs(from: State, steps: seq<Step>, s: State, n: nat, cap: nat)
    decreases |steps|
  {
    if steps == [] then from == s
    else Enabled(from, steps[0], n, cap) && Runs(Apply(from, steps[0], n, cap), steps[1..], s, n, cap)
  }

  /** Entries put so far: all before the one the producer is at. */
  function PutCount(s: State, n: nat): int {
    match s.prod
    case Reading(i) => i
    case Putting(i, _) => i
    case _ => if s.err.FailedAt? then s.err.i else n
  }

  /** Queue items are the tensors `from, from + 1, ...`, the end marker at most at the very end. */
  predicate Follows(queue: seq<Item>, from: nat, to: int, marked: bool) {
    if queue == [] then from == to && !marked
    else if queue[0] == Done then queue == [Done] && from == to && marked
    else queue[0] == Tensor(from) && Follows(queue[1..], from + 1, to, marked)
  }

  predicate Counts(yielded: seq<nat>) {
    forall k :: 0 <= k < |yielded| ==> yielded[k] == k
  }

  /** Holds in every reachable state of an iteration that nobody has stopped: what is yielded,
      queued and being put is the entry list from the start, without gap or repetition. */
  predicate Flowing(s: State, n: nat) {
    && (s.err.FailedAt? ==> s.err.i < n && (s.prod.PuttingDone? || s.prod.Exited?))
    && (s.cons.Getting? || s.cons.Yielding? ==> Follows(s.queue, |s.yielded|, PutCount(s, n), s.prod.Exited?))
  }

  predicate Inv(s: State, n: nat, cap: nat) {
    && Counts(s.yielded) && |s.yielded| <= n && |s.queue| <= cap
    && (s.prod.Reading? ==> s.prod.i <= n) && (s.prod.Putting? ==> s.prod.i < n)
    && (s.cancel <==> s.cons.Joining? || s.cons.Ended?)
    && (s.cons.Ended? ==> s.prod.Exited?)
    && (s.cons.Stopping? || s.cons.Joining? || s.cons.Ended? || Flowing(s, n))
    && ((s.cons.Stopping? || s.cons.Joining? || s.cons.Ended?) && s.cons.drained ==>
        s.prod.Exited? && |s.yielded| == (if s.err.FailedAt? then s.err.i else n))
  }

  lemma {:induction false} FollowsPut(queue: seq<Item>, from: nat, to: nat, item: Item)
    requires Follows(queue, from, to, false)
    ensures item == Tensor(to) ==> Follows(queue + [item], from, to + 1, false)
    ensures item == Done ==> Follows(queue + [item], from, to, true)
  {
    if queue == [] {
      assert queue + [item] == [item];
      assert [item][1..] == [];
    } else {
      FollowsPut(queue[1..], from + 1, to, item);
      assert (queue + [item])[1..] == queue[1..] + [item];
    }
  }

  lemma {:induction false} FollowsBound(queue: seq<Item>, from: nat, to: int, marked: bool)
    requires Follows(queue, from, to, marked)
    ensures from <= to
  {
    if queue != [] && queue[0] != Done {
      FollowsBound(queue[1..], from + 1, to, marked);
    }
  }

  lemma {:induction false} StepKeepsInv(s: State, step: Step, n: nat, cap: nat)
    requires Inv(s, n, cap) && Enabled(s, step, n, cap)
    ensures Inv(Apply(s, step, n, cap), n, cap)
  {
    if s.cons.Getting? || s.cons.Yielding? {
      if step == Put {
        FollowsPut(s.queue, |s.yielded|, PutCount(s, n), if s.prod.Putting? then Tensor(s.prod.i) else Done);
      }
      FollowsBound(s.queue, |s.yielded|, PutCount(s, n), s.prod.Exited?);
      if step == Get && s.queue[0].Tensor? {
        FollowsBound(s.queue[1..], |s.yielded| + 1, PutCount(s, n), s.prod.Exited?);
      }
    }
  }

  lemma {:induction false} RunKeepsInv(from: State, steps: seq<Step>, s: State, n: nat, cap: nat)
    requires Inv(from, n, cap) && Runs(from, steps, s, n, cap)
    ensures Inv(s, n, cap)
    decreases |steps|
  {
    if steps != [] {
      StepKeepsInv(from, steps[0], n, cap);
      RunKeepsInv(Apply(from, steps[0], n, cap), steps[1..], s, n, cap);
    }
  }

  /** In every interleaving the consumer has been given a prefix of the entries, in order. When it
      has drained the queue, that is all of them, or those before the entry whose error it raises. */
  lemma {:induction false} YieldsPrefix(steps: seq<Step>, s: State, n: nat, prefetch: int)
    requires Runs(INITIAL, steps, s, n, Capacity(prefetch))
    ensures |s.yielded| <= n && forall k :: 0 <= k < |s.yielded| ==> s.yielded[k] == k
    ensures |s.queue| <= if prefetch < 1 then 1 else prefetch
    ensures s.cons == Ended(true) ==> |s.yielded| == if s.err.FailedAt? then s.err.i else n
    ensures s.cons.Ended? ==> s.prod.Exited?
  {
    RunKeepsInv(INITIAL, steps, s, n, Capacity(prefetch));
  }

  // ----- How a run ends -----

  /** What the steps of a run leave in its state. */
  ghost predicate Traces(s: State, steps: seq<Step>) {
    && (s.err.FailedAt? <==> ReadFails in steps)
    && match s.cons
      case Getting => Close !in steps
      case Yielding => Close !in steps
      case Stopping(drained) => drained <==> Close !in steps
      case Joining(drained) => drained <==> Close !in steps
      case Ended(drained) => drained <==> Close !in steps
  }

  lemma {:induction false} RunTraces(from: State, before: seq<Step>, steps: seq<Step>, s: State, n: nat, cap: nat)
    requires Traces(from, before) && Runs(from, steps, s, n, cap)
    ensures Traces(s, before + steps)
    decreases |steps|
  {
    if steps == [] {
      assert before + steps == before;
    } else {
      var x := steps[0];
      forall y ensures y in before + [x] <==> y in before || y == x { }
      RunTraces(Apply(from, x, n, cap), before + [x], steps[1..], s, n, cap);
      assert before + [x] + steps[1..] == before + steps;
    }
  }

  /** A finished iteration that was not closed has yielded every entry, each once and in order, if no read
      failed, and else those before the one that failed, whose error it raises; nothing else raises one. */
  lemma {:induction false} UnclosedYieldsAll(steps: seq<Step>, s: State, n: nat, prefetch: int)
    requires Runs(INITIAL, steps, s, n, Capacity(prefetch)) && s.cons.Ended? && Close !in steps
    ensures forall k :: 0 <= k < |s.yielded| ==> s.yielded[k] == k
    ensures ReadFails !in steps ==> s.err == NoFailure && |s.yielded| == n
    ensures ReadFails in steps ==> s.err == FailedAt(|s.yielded|) && |s.yielded| < n
  {
    RunTraces(INITIAL, [], steps, s, n, Capacity(prefetch));
    assert [] + steps == steps;
    RunKeepsInv(INITIAL, steps, s, n, Capacity(prefetch));
    FailureInside(INITIAL, steps, s, n, Capacity(prefetch));
  }

  lemma {:induction false} FailureInside(from: State, steps: seq<Step>, s: State, n: nat, cap: nat)
    requires Runs(from, steps, s, n, cap) && (from.err.FailedAt? ==> from.err.i < n)
    ensures s.err.FailedAt? ==> s.err.i < n
    decreases |steps|
  {
    if steps != [] { FailureInside(Apply(from, steps[0], n, cap), steps[1..], s, n, cap); }
  }

  /** Left alone, the producer reads ahead by the whole capacity: as many entries as were asked for, or one. */
  lemma {:induction false} QueueFills(n: nat, prefetch: int, k: nat) returns (steps: seq<Step>, s: State)
    requires k <= n && k <= if prefetch < 1 then 1 else prefetch
    ensures Runs(INITIAL, steps, s, n, Capacity(prefetch))
    ensures |s.queue| == k && s.prod == Reading(k) && s.cons.Getting? && !s.cancel && s.yielded == []
  {
    if k == 0 {
      return [], INITIAL;
    }
    var cap := Capacity(prefetch);
    steps, s := QueueFills(n, prefetch, k - 1);
    var read := Apply(s, ReadOk, n, cap);
    var ready := Apply(read, Check, n, cap);
    var put := Apply(ready, Put, n, cap);
    OneStep(s, ReadOk, n, cap);
    OneStep(read, Check, n, cap);
    OneStep(ready, Put, n, cap);
    hide Apply, Enabled;
    RunsOn(s, [ReadOk], read, [Check], ready, n, cap);
    RunsOn(s, [ReadOk] + [Check], ready, [Put], put, n, cap);
    RunsOn(INITIAL, steps, s, [ReadOk] + [Check] + [Put], put, n, cap);
    steps, s := steps + ([ReadOk] + [Check] + [Put]), put;
  }

  predicate Armed(p: Producer) {
    IsPutting(p) && p.armed
  }

  /** Once the cancel flag is set, a producer that is not inside a put puts nothing any more. */
  lemma {:induction false} NothingPutAfterCancel(s: State, steps: seq<Step>, t: State, n: nat, cap: nat)
    requires s.cancel && !Armed(s.prod) && Runs(s, steps, t, n, cap)
    ensures t.cancel && !Armed(t.prod) && Put !in steps && |t.queue| <= |s.queue|
    decreases |steps|
  {
    if steps != [] {
      NothingPutAfterCancel(Apply(s, steps[0], n, cap), steps[1..], t, n, cap);
    }
  }

  // ----- Teardown -----

  /** Producer steps left once the cancel flag is set. */
  function StepsToExit(p: Producer): nat {
    match p
    case Exited => 0
    case Reading(_) => 3
    case Putting(_, armed) => if armed then 4 else 2
    case PuttingDone(armed) => if armed then 2 else 1
  }

  predicate ProducerStep(step: Step) {
    step in {ReadOk, ReadFails, LoopEnds, Check, Put, TimesOut, GivesUp}
  }

  /** After the consumer has stopped, whatever the queue holds, the producer is never blocked, and
      each of its steps brings it nearer to its end: the join waits for at most four of them. */
  lemma {:induction false} ProducerExitsAfterCancel(s: State, n: nat, cap: nat)
    requires s.cancel && !s.prod.Exited?
    ensures exists step :: ProducerStep(step) && Enabled(s, step, n, cap)
    ensures forall step :: ProducerStep(step) && Enabled(s, step, n, cap) ==>
      StepsToExit(Apply(s, step, n, cap).prod) < StepsToExit(s.prod) <= 4 && Apply(s, step, n, cap).cancel
  {
    var step := match s.prod
      case Reading(i) => if i < n then ReadOk else LoopEnds
      case Putting(_, armed) => if !armed then GivesUp else if |s.queue| < cap then Put else TimesOut
      case PuttingDone(armed) => if !armed then GivesUp else if |s.queue| < cap then Put else TimesOut;
    assert ProducerStep(step) && Enabled(s, step, n, cap);
  }

  // ----- Progress of the whole iteration -----

  function ProducerWork(p: Producer, n: nat): nat {
    match p
    case Exited => 0
    case PuttingDone(_) => 1
    case Reading(i) => if i <= n then 2 * (n - i) + 2 else 2
    case Putting(i, _) => if i < n then 2 * (n - i) + 1 else 2
  }

  function ConsumerWork(c: Consumer): nat {
    match c
    case Ended(_) => 0
    case Joining(_) => 1
    case Stopping(_) => 2
    case Getting => 3
    case Yielding => 4
  }

  function Work(s: State, n: nat): nat {
    3 * ProducerWork(s.prod, n) + 2 * |s.queue| + ConsumerWork(s.cons)
  }

  /** No step adds work; only checking the flag and timing out leave it as it is. */
  lemma {:induction false} StepsDoWork(s: State, step: Step, n: nat, cap: nat)
    requires Enabled(s, step, n, cap)
    requires (s.prod.Reading? ==> s.prod.i <= n) && (s.prod.Putting? ==> s.prod.i < n)
    ensures Work(Apply(s, step, n, cap), n) <= Work(s, n)
    ensures step != Check && step != TimesOut ==> Work(Apply(s, step, n, cap), n) < Work(s, n)
  {
  }

  lemma {:induction false} OneStep(s: State, step: Step, n: nat, cap: nat)
    requires Enabled(s, step, n, cap)
    ensures Runs(s, [step], Apply(s, step, n, cap), n, cap)
  {
    assert [step][1..] == [];
  }

  /** Nothing is ever stuck: in every reachable unfinished state one or two steps do work, or bring
      the producer of a stopped iteration nearer to its end. */
  lemma {:induction false} NeverStuck(s: State, n: nat, cap: nat) returns (steps: seq<Step>, t: State)
    requires Inv(s, n, cap) && 0 < cap && !s.cons.Ended?
    ensures Runs(s, steps, t, n, cap) && Inv(t, n, cap) && Close !in steps && ReadFails !in steps
    ensures Work(t, n) < Work(s, n) || (s.cancel && Work(t, n) == Work(s, n) &&
        StepsToExit(t.prod) < StepsToExit(s.prod))
  {
    var step := match s.cons
      case Stopping(_) => Cancel
      case Yielding => Resume
      case Joining(_) => if s.prod.Exited? then Join else NextProducerStep(s, n, cap)
      case _ => if s.queue != [] then Get else NextProducerStep(s, n, cap);
    StepKeepsInv(s, step, n, cap);
    StepsDoWork(s, step, n, cap);
    OneStep(s, step, n, cap);
    t := Apply(s, step, n, cap);
    steps := [step];
    if step == Check {
      var u := Apply(t, Put, n, cap);
      StepKeepsInv(t, Put, n, cap);
      StepsDoWork(t, Put, n, cap);
      OneStep(t, Put, n, cap);
      RunsOn(s, [Check], t, [Put], u, n, cap);
      steps, t := [Check] + [Put], u;
    }
  }

  function NextProducerStep(s: State, n: nat, cap: nat): Step {
    match s.prod
    case Reading(i) => if i < n then ReadOk else LoopEnds
    case Putting(_, armed) => if !armed then (if s.cancel then GivesUp else Check) else if |s.queue| < cap then Put
        else TimesOut
    case PuttingDone(armed) => if !armed then (if s.cancel then GivesUp else Check) else if |s.queue| < cap then Put
        else TimesOut
    case Exited => Join
  }

  lemma {:induction false} RunsOn(from: State, a: seq<Step>, mid: State, b: seq<Step>, to: State, n: nat, cap: nat)
    requires Runs(from, a, mid, n, cap) && Runs(mid, b, to, n, cap)
    ensures Runs(from, a + b, to, n, cap)
    decreases |a|
  {
    if a == [] {
      assert a + b == b;
    } else {
      RunsOn(Apply(from, a[0], n, cap), a[1..], mid, b, to, n, cap);
      assert (a + b)[1..] == a[1..] + b;
    }
  }

  /** Every reachable state can still be run to the end, without closing it and without another failure. */
  lemma {:induction false} CanEnd(s: State, n: nat, cap: nat) returns (steps: seq<Step>, t: State)
    requires Inv(s, n, cap) && 0 < cap
    ensures Runs(s, steps, t, n, cap) && t.cons.Ended? && Close !in steps && ReadFails !in steps
    decreases Work(s, n), StepsToExit(s.prod)
  {
    if s.cons.Ended? {
      return [], s;
    }
    var first, mid := NeverStuck(s, n, cap);
    var rest;
    rest, t := CanEnd(mid, n, cap);
    RunsOn(s, first, mid, rest, t, n, cap);
    steps := first + rest;
  }
}
