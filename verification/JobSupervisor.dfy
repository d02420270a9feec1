/** The checkpoint job supervisor: one job slot and one child slot under a lock, changed by start
    requests, cancel requests and one monitor thread per child. Each critical section is a function
    on the slots; the class methods below run these functions on the fields. */
module JobSupervisor {
  import opened Basics

  datatype JobState = Running | Finished | Failed | Cancelled

  /** `pid` is -1 until the child exists. */
  datatype Job = Job(id: nat, pid: int, state: JobState, exitCode: Option<int>)

  /** What the lock protects. A child is known by its process id. */
  datatype Slots = Slots(job: Option<Job>, child: Option<nat>)

  datatype Admission = Reserved | Idempotent(pid: Option<int>) | AlreadyRunning | StillTerminating

  function Admit(s: Slots, id: nat, childReaped: bool): Admission {
    if s.job.Some? && s.job.value.state == Running then
      if s.job.value.id == id then Idempotent(if s.job.value.pid > 0 then Some(s.job.value.pid) else None)
      else AlreadyRunning
    else if s.child.Some? && !childReaped then StillTerminating
    else Reserved
  }

  function ReserveSlots(s: Slots, id: nat, childReaped: bool): Slots {
    if Admit(s, id, childReaped) == Reserved then Slots(Some(Job(id, -1, Running, None)), None) else s
  }

  function ReleaseSlots(s: Slots, id: nat): Slots {
    if s.job.Some? && s.job.value.id == id then s.(job := None) else s
  }

  /** The child is recorded first; without a job the next assignment raises. */
  function CommitSlots(s: Slots, pid: nat): Slots {
    Slots(if s.job.Some? then Some(s.job.value.(pid := pid)) else None, Some(pid))
  }

  function SettleSlots(s: Slots, id: nat, code: Option<int>): Slots {
    if s.job.Some? && s.job.value.id == id then
      var job := s.job.value;
      var state := if job.state == Cancelled then Cancelled else if code == Some(0) then Finished else Failed;
      s.(job := Some(job.(state := state, exitCode := code)))
    else s
  }

  predicate Cancellable(s: Slots, id: nat) {
    s.job.Some? && s.job.value.id == id && s.job.value.state == Running
  }

  function CancelSlots(s: Slots, id: nat): Slots {
    if Cancellable(s, id) then s.(job := Some(s.job.value.(state := Cancelled))) else s
  }

  class Child {
    const pid: nat
    var reaped: bool

    constructor (pid: nat)
      ensures this.pid == pid && !reaped
    {
      this.pid := pid;
      reaped := false;
    }
  }

  class CheckpointManager {
    var job: Option<Job>
    var child: Child?

    ghost function View(): Slots
      reads this
    {
      Slots(job, if child == null then None else Some(child.pid))
    }

    constructor ()
      ensures View() == Slots(None, None)
    {
      job, child := None, null;
    }

    /** The admission section of a start request. */
    method Reserve(id: nat) returns (a: Admission)
      modifies this
      ensures a == Admit(old(View()), id, old(child) != null && old(child.reaped))
      ensures View() == ReserveSlots(old(View()), id, old(child) != null && old(child.reaped))
    {
      if job.Some? && job.value.state == Running {
        if job.value.id == id {
          return Idempotent(if job.value.pid > 0 then Some(job.value.pid) else None);
        }
        return AlreadyRunning;
      }
      if child != null && !child.reaped {
        return StillTerminating;
      }
      job, child := Some(Job(id, -1, Running, None)), null;
      return Reserved;
    }

    /** After a failed spawn. */
    method Release(id: nat)
      modifies this
      ensures View() == ReleaseSlots(old(View()), id)
    {
      if job.Some? && job.value.id == id {
        job := None;
      }
    }

    /** After a successful spawn. `cancelled` tells the caller to terminate the child at once;
        without a job the section raises, having recorded the child. */
    method Commit(c: Child) returns (raised: bool, cancelled: bool)
      modifies this
      ensures View() == CommitSlots(old(View()), c.pid) && child == c
      ensures raised == old(job).None? && (cancelled <==> old(job).Some? && old(job).value.state == Cancelled)
    {
      child := c;
      if job.None? {
        return true, false;
      }
      job := Some(job.value.(pid := c.pid));
      return false, job.value.state == Cancelled;
    }

    /** The locked part of the monitor of a child started for `id`. */
    method Settle(id: nat, code: Option<int>)
      modifies this
      ensures View() == SettleSlots(old(View()), id, code)
    {
      if job.Some? && job.value.id == id {
        if job.value.state != Cancelled {
          job := Some(job.value.(state := if code == Some(0) then Finished else Failed));
        }
        job := Some(job.value.(exitCode := code));
      }
    }

    /** A cancel request; `target` is the child to signal, if it exists yet. */
    method Cancel(id: nat) returns (cancelled: bool, target: Child?)
      modifies this
      ensures View() == CancelSlots(old(View()), id) && cancelled == Cancellable(old(View()), id)
      ensures target == if cancelled && old(job).value.pid > 0 then old(child) else null
    {
      if job.None? || job.value.id != id || job.value.state != Running {
        return false, null;
      }
      job := Some(job.value.(state := Cancelled));
      return true, if job.value.pid > 0 then child else null;
    }
  }

  // ----- The system: sections, spawns, exits and monitors interleaved -----

  /** A start request past admission. */
  datatype Start = Spawning(id: nat) | Spawned(id: nat, pid: nat)

  datatype Monitor = NoMonitor | Waiting | Settling(code: Option<int>) | Gone

  /** A spawned process: whose it is, how it exited, whether its exit was collected, and its monitor. */
  datatype Process = Process(id: nat, exited: Option<int>, reaped: bool, monitor: Monitor)

  datatype State = State(slots: Slots, starts: map<nat, Start>, procs: map<nat, Process>)

  datatype Step =
    | Request(thread: nat, id: nat)
    | SpawnOk(thread: nat, pid: nat)
    | SpawnFails(thread: nat)
    | CommitStart(thread: nat)
    | Exit(pid: nat, code: int)
    | Reap(pid: nat, waitFails: bool)
    | MonitorSettles(pid: nat)
    | CancelRequest(id: nat)

  const INITIAL := State(Slots(None, None), map[], map[])

  predicate ChildReaped(s: State) {
    s.slots.child.Some? && s.slots.child.value in s.procs && s.procs[s.slots.child.value].reaped
  }

  predicate Enabled(s: State, step: Step) {
    match step
    case Request(t, _) => t !in s.starts
    case SpawnOk(t, pid) => t in s.starts && s.starts[t].Spawning? && pid !in s.procs && 0 < pid
    case SpawnFails(t) => t in s.starts && s.starts[t].Spawning?
    case CommitStart(t) => t in s.starts && s.starts[t].Spawned? && s.starts[t].pid in s.procs
    case Exit(pid, _) => pid in s.procs && s.procs[pid].exited.None?
    case Reap(pid, _) => pid in s.procs && s.procs[pid].exited.Some? && s.procs[pid].monitor.Waiting?
    case MonitorSettles(pid) => pid in s.procs && s.procs[pid].monitor.Settling?
    case CancelRequest(_) => true
  }

  predicate Admitted(s: State, id: nat) {
    Admit(s.slots, id, ChildReaped(s)) == Reserved
  }

  function Apply(s: State, step: Step): State
    requires Enabled(s, step)
  {
    match step
    case Request(t, id) =>
      if Admitted(s, id) then s.(slots := ReserveSlots(s.slots, id, ChildReaped(s)), starts :=
          s.starts[t := Spawning(id)]) else s
    case SpawnOk(t, pid) =>
      s.(starts := s.starts[t := Spawned(s.starts[t].id, pid)], procs :=
          s.procs[pid := Process(s.starts[t].id, None, false, NoMonitor)])
    case SpawnFails(t) =>
      s.(slots := ReleaseSlots(s.slots, s.starts[t].id), starts := s.starts - {t})
    case CommitStart(t) =>
      var pid := s.starts[t].pid;
      s.(slots := CommitSlots(s.slots, pid), starts := s.starts - {t},
         procs := if s.slots.job.Some? then s.procs[pid := s.procs[pid].(monitor := Waiting)] else s.procs)
    case Exit(pid, code) => s.(procs := s.procs[pid := s.procs[pid].(exited := Some(code))])
    case Reap(pid, waitFails) =>
      s.(procs := s.procs[pid := s.procs[pid].(reaped := true, monitor :=
          Settling(if waitFails then None else s.procs[pid].exited))])
    case MonitorSettles(pid) =>
      s.(slots := SettleSlots(s.slots, s.procs[pid].id, s.procs[pid].monitor.code), procs :=
          s.procs[pid := s.procs[pid].(monitor := Gone)])
    case CancelRequest(id) => s.(slots := CancelSlots(s.slots, id))
  }

  /** Two conversions at once: what admission is there to prevent. */
  predicate Exclusive(s: State) {
    forall p, q :: p in s.procs && q in s.procs && !s.procs[p].reaped && !s.procs[q].reaped ==> p == q
  }

  /** The cancel request finds the job reserved but its child not yet recorded. */
  predicate CancelsInWindow(s: State, id: nat) {
    Cancellable(s.slots, id) && s.slots.job.value.pid <= 0
  }

  /** The request is admitted for an id whose previous monitor has not settled yet. */
  predicate ReusesUnsettled(s: State, id: nat) {
    Admitted(s, id) && exists p :: p in s.procs && s.procs[p].id == id && s.procs[p].monitor.Settling?
  }

  /** Steps outside the two harmful situations. */
  predicate Careful(s: State, step: Step) {
    match step
    case Request(_, id) => !ReusesUnsettled(s, id)
    case CancelRequest(id) => !CancelsInWindow(s, id)
    case _ => true
  }

  predicate CarefulRun(from: State, steps: seq<Step>, to: State)
    decreases |steps|
  {
    if steps == [] then from == to
    else Enabled(from, steps[0]) && Careful(from, steps[0]) && CarefulRun(Apply(from, steps[0]), steps[1..], to)
  }

  /** A start in flight owns the job slot, and no other process runs. */
  predicate InFlightOk(s: State, t: nat)
    requires t in s.starts
  {
    && s.slots.job.Some? && s.slots.job.value.id == s.starts[t].id
    && s.slots.job.value.state == Running && s.slots.job.value.pid <= 0
    && s.slots.child.None?
    && (s.starts[t].Spawned? ==>
        (s.starts[t].pid in s.procs && s.procs[s.starts[t].pid].id == s.starts[t].id &&
            s.procs[s.starts[t].pid].monitor.NoMonitor?))
    && forall p :: p in s.procs && !s.procs[p].reaped ==> s.starts[t].Spawned? && s.starts[t].pid == p
  }

  predicate IdleOk(s: State) {
    && (forall p :: p in s.procs && !s.procs[p].reaped ==> s.slots.child == Some(p) && s.procs[p].monitor.Waiting?)
    && (s.slots.job.Some? ==> s.slots.job.value.pid > 0)
    && (s.slots.job.Some? && s.slots.job.value.state == Running ==> JobIsWatched(s))
  }

  /** The running job's child has a monitor that will settle the job. */
  predicate JobIsWatched(s: State)
    requires s.slots.job.Some?
  {
    && s.slots.child.Some? && s.slots.child.value in s.procs
    && var p := s.procs[s.slots.child.value];
    && p.id == s.slots.job.value.id && s.slots.job.value.pid == s.slots.child.value
    && (p.monitor.Waiting? || p.monitor.Settling?)
  }

  /** A process that may still touch the job slot through its monitor is the recorded child. */
  predicate MonitorOk(s: State, p: nat)
    requires p in s.procs
  {
    && 0 < p
    && (s.procs[p].monitor.Waiting? || s.procs[p].monitor.NoMonitor? ==> !s.procs[p].reaped)
    && (s.procs[p].monitor.Settling? ==> s.procs[p].reaped)
    && (s.procs[p].monitor.Settling? && s.slots.job.Some? && s.slots.job.value.id == s.procs[p].id ==>
        s.slots.child == Some(p))
  }

  predicate Inv(s: State) {
    && (forall t, u :: t in s.starts && u in s.starts ==> t == u)
    && (forall t :: t in s.starts ==> InFlightOk(s, t))
    && (s.starts == map[] ==> IdleOk(s))
    && (s.slots.child.Some? ==> s.slots.child.value in s.procs)
    && (forall p :: p in s.procs ==> MonitorOk(s, p))
  }

  /** States that careful runs reach. */
  type Good = s: State | Inv(s) witness INITIAL

  lemma {:induction false} LandingEmpties(s: State, t: nat)
    requires Inv(s) && t in s.starts
    ensures s.starts - {t} == map[]
  {
  }

  lemma {:induction false} CarefulStepKeepsInv(s: State, step: Step)
    requires Inv(s) && Enabled(s, step) && Careful(s, step)
    ensures Inv(Apply(s, step))
  {
    match step
    case Request(t, id) =>
      if Admitted(s, id) { AdmissionKeepsInv(s, t, id); }
    case SpawnFails(t) => LandingEmpties(s, t);
    case CommitStart(t) => LandingEmpties(s, t);
    case CancelRequest(_) =>
    case MonitorSettles(pid) => SettlingKeepsInv(s, pid);
    case _ => ProcessStepKeepsInv(s, step);
  }

  lemma {:induction false} SettlingKeepsInv(s: State, pid: nat)
    requires Inv(s) && Enabled(s, MonitorSettles(pid))
    ensures Inv(Apply(s, MonitorSettles(pid)))
  {
    assert MonitorOk(s, pid);
  }

  /** What a process does until its monitor settles. */
  lemma {:induction false} ProcessStepKeepsInv(s: State, step: Step)
    requires Inv(s) && Enabled(s, step) && (step.SpawnOk? || step.Exit? || step.Reap?)
    ensures Inv(Apply(s, step))
  {
  }

  lemma {:induction false} AdmissionKeepsInv(s: State, t: nat, id: nat)
    requires Inv(s) && t !in s.starts && Admitted(s, id) && !ReusesUnsettled(s, id)
    ensures Inv(Apply(s, Request(t, id)))
  {
    assert s.starts == map[];
  }

  lemma {:induction false} CarefulRunKeepsInv(from: State, steps: seq<Step>, to: State)
    requires Inv(from) && CarefulRun(from, steps, to)
    ensures Inv(to)
    decreases |steps|
  {
    if steps != [] {
      CarefulStepKeepsInv(from, steps[0]);
      CarefulRunKeepsInv(Apply(from, steps[0]), steps[1..], to);
    }
  }

  lemma {:induction false} InvIsExclusive(s: Good)
    ensures Exclusive(s)
  {
    forall p, q | p in s.procs && q in s.procs && !s.procs[p].reaped && !s.procs[q].reaped ensures p == q {
      if s.starts != map[] {
        var t :| t in s.starts;
        assert InFlightOk(s, t);
      }
    }
  }

  /** In every interleaving of requests, spawns, exits, monitors and cancels that never cancels a
      job inside its reserve-to-commit window and never admits an id whose last monitor has not
      settled, at most one spawned process is unreaped. */
  lemma {:induction false} OneConversionAtATime(steps: seq<Step>, s: State)
    requires CarefulRun(INITIAL, steps, s)
    ensures Exclusive(s)
  {
    CarefulRunKeepsInv(INITIAL, steps, s);
    InvIsExclusive(s);
  }

  /** The careful continuations of a state lead to two processes at once. */
  ghost predicate Endangered(s: State) {
    exists steps, t :: CarefulRun(s, steps, t) && !Exclusive(t)
  }

  lemma {:induction false} FreshNumber(used: set<nat>) returns (m: nat)
    ensures 0 < m && forall x :: x in used ==> x < m
  {
    if used == {} {
      m := 1;
    } else {
      var x :| x in used;
      m := FreshNumber(used - {x});
      m := if m <= x then x + 1 else m;
      forall y | y in used ensures y < m {
        assert y == x || y in used - {x};
      }
    }
  }

  lemma {:induction false} RunOf(s: State, steps: seq<Step>, t: State, step: Step)
    requires CarefulRun(s, steps, t) && Enabled(t, step) && Careful(t, step)
    ensures CarefulRun(s, steps + [step], Apply(t, step))
    decreases |steps|
  {
    if steps == [] {
      assert ([] + [step])[1..] == [];
    } else {
      RunOf(Apply(s, steps[0]), steps[1..], t, step);
      assert (steps + [step])[1..] == steps[1..] + [step];
    }
  }

  /** From a state where a spawned or spawning start has lost its hold on the slots, a careful
      caller can still end up with two processes. */
  lemma {:induction false} UnguardedStartEndangers(s: State, t: nat)
    requires t in s.starts && s.slots.child.None?
    requires s.slots.job.Some? ==> s.slots.job.value.state != Running
    requires s.starts[t].Spawned? ==> s.starts[t].pid in s.procs && !s.procs[s.starts[t].pid].reaped
    ensures Endangered(s)
  {
    var ids := set p | p in s.procs :: s.procs[p].id;
    var id := FreshNumber(ids);
    var u := FreshNumber(s.starts.Keys);
    var a := Request(u, id);
    var s1 := Apply(s, a);
    assert !ReusesUnsettled(s, id) by {
      assert forall p :: p in s.procs ==> s.procs[p].id in ids;
    }
    RunOf(s, [], s, a);
    assert s1.starts == s.starts[u := Spawning(id)] && s1.procs == s.procs;
    var p := FreshNumber(s.procs.Keys);
    var b := SpawnOk(u, p);
    var s2 := Apply(s1, b);
    RunOf(s, [] + [a], s1, b);
    if s.starts[t].Spawned? {
      assert !s2.procs[s.starts[t].pid].reaped && !s2.procs[p].reaped;
      assert !Exclusive(s2);
    } else {
      var q := p + 1;
      var c := SpawnOk(t, q);
      var s3 := Apply(s2, c);
      RunOf(s, [] + [a] + [b], s2, c);
      assert !s3.procs[p].reaped && !s3.procs[q].reaped;
      assert !Exclusive(s3);
    }
  }

  /** A cancel request endangers exclusivity exactly when it hits the reserve-to-commit window. */
  lemma {:induction false} CancelEndangersIff(s: Good, id: nat)
    ensures Endangered(Apply(s, CancelRequest(id))) <==> CancelsInWindow(s, id)
  {
    var after := Apply(s, CancelRequest(id));
    if CancelsInWindow(s, id) {
      assert s.starts != map[];
      var t :| t in s.starts;
      assert InFlightOk(s, t);
      UnguardedStartEndangers(after, t);
    } else {
      CarefulStepKeepsInv(s, CancelRequest(id));
      InvIsSafe(after);
    }
  }

  lemma {:induction false} InvIsSafe(s: Good)
    ensures !Endangered(s)
  {
    forall steps, t | CarefulRun(s, steps, t) ensures Exclusive(t) {
      CarefulRunKeepsInv(s, steps, t);
      InvIsExclusive(t);
    }
  }

  /** A request endangers exclusivity exactly when it is admitted for an id whose last monitor has
      not settled: that monitor matches by id and ends the new job before its child is recorded. */
  lemma {:induction false} RequestEndangersIff(s: State, t: nat, id: nat)
    requires Inv(s) && t !in s.starts
    ensures Endangered(Apply(s, Request(t, id))) <==> ReusesUnsettled(s, id)
  {
    var after := Apply(s, Request(t, id));
    if ReusesUnsettled(s, id) {
      var p :| p in s.procs && s.procs[p].id == id && s.procs[p].monitor.Settling?;
      var settle := MonitorSettles(p);
      var ended := Apply(after, settle);
      UnguardedStartEndangers(ended, t);
      EndangeredBefore(after, settle);
    } else {
      CarefulStepKeepsInv(s, Request(t, id));
      InvIsSafe(after);
    }
  }

  lemma {:induction false} EndangeredBefore(s: State, step: Step)
    requires Enabled(s, step) && Careful(s, step) && Endangered(Apply(s, step))
    ensures Endangered(s)
  {
    var steps, t :| CarefulRun(Apply(s, step), steps, t) && !Exclusive(t);
    assert ([step] + steps)[1..] == steps;
    assert CarefulRun(s, [step] + steps, t);
  }

  // ----- What holds in every run, careful or not -----

  /** A cancelled job stays cancelled: only its exit code and pid may still change, until the slot
      is emptied or reserved for another job. */
  lemma {:induction false} CancelledStaysCancelled(s: State, step: Step)
    requires Enabled(s, step) && s.slots.job.Some? && s.slots.job.value.state == Cancelled
    ensures var after := Apply(s, step).slots.job;
      || after == None
      || (after.value.id == s.slots.job.value.id && after.value.state == Cancelled)
      || (step.Request? && after == Some(Job(step.id, -1, Running, None)))
  {
  }

  predicate AnyRun(from: State, steps: seq<Step>, to: State)
    decreases |steps|
  {
    if steps == [] then from == to
    else Enabled(from, steps[0]) && AnyRun(Apply(from, steps[0]), steps[1..], to)
  }

  // ----- How a job ends -----

  /** A collected process's monitor has its exit code, or none if waiting failed, and an ended job has the
      code of a process of its own that was collected: it is finished exactly if that is 0. */
  ghost predicate EndsHonestly(s: State) {
    && (forall p :: p in s.procs && s.procs[p].reaped ==> s.procs[p].exited.Some?)
    && (forall p :: p in s.procs && s.procs[p].monitor.Settling? ==>
        s.procs[p].reaped && (s.procs[p].monitor.code.Some? ==> s.procs[p].monitor.code == s.procs[p].exited))
    && (s.slots.job.Some? && s.slots.job.value.state in {Finished, Failed} ==> JobHasExit(s, s.slots.job.value))
  }

  ghost predicate JobHasExit(s: State, job: Job) {
    && (exists p :: p in s.procs && IsExitOf(s.procs[p], job))
    && (job.state == Finished <==> job.exitCode == Some(0))
  }

  predicate IsExitOf(p: Process, job: Job) {
    p.id == job.id && p.reaped && (job.exitCode.Some? ==> p.exited == job.exitCode)
  }

  lemma {:induction false} StepEndsHonestly(s: State, step: Step)
    requires EndsHonestly(s) && Enabled(s, step)
    ensures EndsHonestly(Apply(s, step))
  {
    var t := Apply(s, step);
    if s.slots.job.Some? && JobHasExit(s, s.slots.job.value) {
      var p :| p in s.procs && IsExitOf(s.procs[p], s.slots.job.value);
      assert p in t.procs && IsExitOf(t.procs[p], s.slots.job.value);
    }
    if step.MonitorSettles? {
      assert step.pid in t.procs && t.procs[step.pid].reaped;
      if t.slots.job.Some? && t.slots.job.value.id == t.procs[step.pid].id {
        assert IsExitOf(t.procs[step.pid], t.slots.job.value);
      }
    }
  }

  /** In every run, careful or not: a finished job has a collected process that exited with 0; a failed one
      has a collected process whose exit is known to be another, or unknown. */
  lemma {:induction false} EndIsExit(steps: seq<Step>, s: State)
    requires AnyRun(INITIAL, steps, s) && s.slots.job.Some?
    ensures var job := s.slots.job.value;
      && (job.state == Finished ==> job.exitCode == Some(0))
      && (job.state == Failed ==> job.exitCode != Some(0))
      && (job.state == Finished || job.state == Failed ==> exists p :: (
          && p in s.procs && s.procs[p].id == job.id && s.procs[p].reaped
          && (job.exitCode.Some? ==> s.procs[p].exited == job.exitCode)))
  {
    RunEndsHonestly(INITIAL, steps, s);
  }

  /** An exit code is that of an exit in the run. */
  lemma {:induction false} ExitHappened(from: State, steps: seq<Step>, to: State, p: nat)
    requires AnyRun(from, steps, to) && p in to.procs && to.procs[p].exited.Some?
    ensures (p in from.procs && from.procs[p].exited == to.procs[p].exited) ||
        Exit(p, to.procs[p].exited.value) in steps
    decreases |steps|
  {
    if steps != [] {
      ExitHappened(Apply(from, steps[0]), steps[1..], to, p);
    }
  }

  lemma {:induction false} RunEndsHonestly(from: State, steps: seq<Step>, to: State)
    requires EndsHonestly(from) && AnyRun(from, steps, to)
    ensures EndsHonestly(to)
    decreases |steps|
  {
    if steps != [] {
      StepEndsHonestly(from, steps[0]);
      RunEndsHonestly(Apply(from, steps[0]), steps[1..], to);
    }
  }

  /** From a collected process on, whatever runs before its monitor gets the lock: the monitor settles the
      job of its id and no other, and unless that was cancelled it is then finished exactly if the process
      exited with 0 and waiting did not fail. */
  lemma {:induction false} SettlesByExit(
      before: seq<Step>, s: State, p: nat, waitFails: bool, steps: seq<Step>, t: State)
    requires AnyRun(INITIAL, before, s) && Enabled(s, Reap(p, waitFails))
    requires AnyRun(Apply(s, Reap(p, waitFails)), steps, t)
    requires Enabled(t, MonitorSettles(p)) && t.slots.job.Some?
    ensures var job, after := t.slots.job.value, Apply(t, MonitorSettles(p)).slots.job;
      && after.Some?
      && (job.id != s.procs[p].id ==> after.value == job)
      && (job.id == s.procs[p].id ==> (
          && after.value.id == job.id && after.value.pid == job.pid
          && after.value.exitCode == (if waitFails then None else s.procs[p].exited)
          && (job.state == Cancelled ==> after.value.state == Cancelled)
          && (job.state != Cancelled && !waitFails && s.procs[p].exited == Some(0) ==> after.value.state == Finished)
          && (job.state != Cancelled && (waitFails || s.procs[p].exited != Some(0)) ==> after.value.state == Failed)))
  {
    RunKeepsStarts(INITIAL, before, s);
    StepKeepsStarts(s, Reap(p, waitFails));
    CodeKept(Apply(s, Reap(p, waitFails)), steps, t, p, if waitFails then None else s.procs[p].exited);
  }

  /** A start that has spawned has its process to itself, without a monitor yet. */
  ghost predicate StartsOwn(s: State) {
    forall u :: u in s.starts && s.starts[u].Spawned? ==>
      && s.starts[u].pid in s.procs && s.procs[s.starts[u].pid].monitor.NoMonitor?
      && forall v :: v in s.starts && s.starts[v].Spawned? && s.starts[v].pid == s.starts[u].pid ==> u == v
  }

  lemma {:induction false} StepKeepsStarts(s: State, step: Step)
    requires StartsOwn(s) && Enabled(s, step)
    ensures StartsOwn(Apply(s, step))
  {
  }

  lemma {:induction false} RunKeepsStarts(from: State, steps: seq<Step>, to: State)
    requires StartsOwn(from) && AnyRun(from, steps, to)
    ensures StartsOwn(to)
    decreases |steps|
  {
    if steps != [] {
      StepKeepsStarts(from, steps[0]);
      RunKeepsStarts(Apply(from, steps[0]), steps[1..], to);
    }
  }

  /** A monitor's code is the one its process was collected with until it settles, and it settles once. */
  lemma {:induction false} CodeKept(s: State, steps: seq<Step>, t: State, p: nat, code: Option<int>)
    requires StartsOwn(s) && AnyRun(s, steps, t)
    requires p in s.procs && s.procs[p].monitor in {Settling(code), Gone}
    ensures p in t.procs && t.procs[p].id == s.procs[p].id && t.procs[p].monitor in {Settling(code), Gone}
    decreases |steps|
  {
    if steps != [] {
      StepKeepsStarts(s, steps[0]);
      CodeKept(Apply(s, steps[0]), steps[1..], t, p, code);
    }
  }

  // ----- Whose job a section changes -----

  /** A cancel changes the state of the running job of that id, and nothing else. */
  lemma {:induction false} CancelIsExact(s: State, id: nat)
    ensures var t := Apply(s, CancelRequest(id));
      && t.starts == s.starts && t.procs == s.procs && t.slots.child == s.slots.child
      && (s.slots.job.Some? && s.slots.job.value.id == id && s.slots.job.value.state == Running ==>
          t.slots.job == Some(Job(id, s.slots.job.value.pid, Cancelled, s.slots.job.value.exitCode)))
      && (s.slots.job.None? || s.slots.job.value.id != id || s.slots.job.value.state != Running ==>
          t.slots.job == s.slots.job)
  {
  }

  /** A start that fails empties the slot of its own id only; one that commits gives its process to the job in
      the slot, whichever that is, and to the child's. */
  lemma {:induction false} StartIsOwn(s: State, u: nat)
    requires u in s.starts
    ensures s.starts[u].Spawning? ==> (
      var t := Apply(s, SpawnFails(u));
      t.slots == if s.slots.job.Some? && s.slots.job.value.id == s.starts[u].id then Slots(None, s.slots.child)
          else s.slots)
    ensures Enabled(s, CommitStart(u)) ==> (
      var t := Apply(s, CommitStart(u));
      && t.slots.child == Some(s.starts[u].pid)
      && t.slots.job == if s.slots.job.Some?
          then Some(Job(s.slots.job.value.id, s.starts[u].pid, s.slots.job.value.state, s.slots.job.value.exitCode))
          else None)
  {
  }

  // ----- What a request is told -----

  /** While the job of that id runs, the request is told its process, once it is committed; while another
      runs, that one does; with a process not collected, that one ends; else the job is reserved, and then
      no process runs and no start is in flight. */
  lemma {:induction false} AnswerIsHonest(s: Good, id: nat)
    ensures var running := s.slots.job.Some? && s.slots.job.value.state == Running;
      match Admit(s.slots, id, ChildReaped(s))
      case Idempotent(None) => running && s.slots.job.value.id == id && s.starts != map[]
      case Idempotent(Some(p)) =>
        && running && s.slots.job.value.id == id && s.starts == map[]
        && s.slots.job.value.pid == p && 0 < p && p in s.procs && s.procs[p].id == id
      case AlreadyRunning => running && s.slots.job.value.id != id
      case StillTerminating => !running && exists p :: p in s.procs && !s.procs[p].reaped
      case Reserved => !running && s.starts == map[] && forall p :: p in s.procs ==> s.procs[p].reaped
  {
    if s.starts != map[] {
      var t :| t in s.starts;
      assert InFlightOk(s, t);
    }
  }

  /** A recorded child without a monitor: nobody will ever collect it. */
  predicate Orphaned(s: State, p: nat) {
    s.starts == map[] && s.slots.job == None && s.slots.child == Some(p) && p in s.procs
    && !s.procs[p].reaped && s.procs[p].monitor.NoMonitor?
  }

  /** The careful continuations of a state lead to an orphan. */
  ghost predicate Orphanable(s: State) {
    exists steps, t, p :: CarefulRun(s, steps, t) && Orphaned(t, p)
  }

  lemma {:induction false} InvNeverOrphans(s: Good)
    ensures !Orphanable(s)
  {
    forall steps, t, p | CarefulRun(s, steps, t) ensures !Orphaned(t, p) {
      CarefulRunKeepsInv(s, steps, t);
    }
  }

  /** From a state where the only start has lost its hold on the slots, another request whose spawn
      fails empties them, and the start then commits without a job. */
  lemma {:induction false} UnguardedStartOrphans(s: State, t: nat)
    requires s.starts.Keys == {t} && s.slots.child.None?
    requires s.slots.job.Some? ==> s.slots.job.value.state != Running
    requires s.starts[t].Spawned? ==>
        s.starts[t].pid in s.procs && !s.procs[s.starts[t].pid].reaped && s.procs[s.starts[t].pid].monitor.NoMonitor?
    ensures Orphanable(s)
  {
    var ids := set p | p in s.procs :: s.procs[p].id;
    var id := FreshNumber(ids);
    var u := FreshNumber(s.starts.Keys);
    assert forall p :: p in s.procs ==> s.procs[p].id in ids;
    var s1 := Apply(s, Request(u, id));
    RunOf(s, [], s, Request(u, id));
    var s2 := Apply(s1, SpawnFails(u));
    assert s2 == s.(slots := Slots(None, None)) by { assert s.starts[u := Spawning(id)] - {u} == s.starts; }
    RunOf(s, [] + [Request(u, id)], s1, SpawnFails(u));
    LoneCommitOrphans(s, [] + [Request(u, id)] + [SpawnFails(u)], s2, t);
  }

  lemma {:induction false} LoneCommitOrphans(s: State, steps: seq<Step>, now: State, t: nat)
    requires CarefulRun(s, steps, now) && now.starts.Keys == {t} && now.slots == Slots(None, None)
    requires now.starts[t].Spawned? ==>
        now.starts[t].pid in now.procs && !now.procs[now.starts[t].pid].reaped &&
        now.procs[now.starts[t].pid].monitor.NoMonitor?
    ensures Orphanable(s)
    decreases now.starts[t].Spawning?
  {
    if now.starts[t].Spawned? {
      var after := Apply(now, CommitStart(t));
      RunOf(s, steps, now, CommitStart(t));
      assert after.starts == map[];
      assert Orphaned(after, now.starts[t].pid);
    } else {
      var p := FreshNumber(now.procs.Keys);
      var spawned := Apply(now, SpawnOk(t, p));
      RunOf(s, steps, now, SpawnOk(t, p));
      LoneCommitOrphans(s, steps + [SpawnOk(t, p)], spawned, t);
    }
  }

  lemma {:induction false} OrphanableBefore(s: State, step: Step)
    requires Enabled(s, step) && Careful(s, step) && Orphanable(Apply(s, step))
    ensures Orphanable(s)
  {
    var steps, t, p :| CarefulRun(Apply(s, step), steps, t) && Orphaned(t, p);
    assert ([step] + steps)[1..] == steps;
    assert CarefulRun(s, [step] + steps, t);
  }

  /** A cancel request makes an orphan possible exactly when it hits the reserve-to-commit window. */
  lemma {:induction false} CancelOrphansIff(s: Good, id: nat)
    ensures Orphanable(Apply(s, CancelRequest(id))) <==> CancelsInWindow(s, id)
  {
    var after := Apply(s, CancelRequest(id));
    if CancelsInWindow(s, id) {
      assert s.starts != map[];
      var t :| t in s.starts;
      assert InFlightOk(s, t);
      OnlyStart(s, t);
      UnguardedStartOrphans(after, t);
    } else {
      CarefulStepKeepsInv(s, CancelRequest(id));
      InvNeverOrphans(after);
    }
  }

  lemma {:induction false} OnlyStart(s: State, t: nat)
    requires Inv(s) && t in s.starts
    ensures s.starts.Keys == {t}
    ensures s.starts[t].Spawned? ==> !s.procs[s.starts[t].pid].reaped
  {
    assert InFlightOk(s, t);
    if s.starts[t].Spawned? { assert MonitorOk(s, s.starts[t].pid); }
  }

  /** A start request makes one possible exactly when it is admitted for an id whose last monitor
      has not settled. */
  lemma {:induction false} RequestOrphansIff(s: State, t: nat, id: nat)
    requires Inv(s) && t !in s.starts
    ensures Orphanable(Apply(s, Request(t, id))) <==> ReusesUnsettled(s, id)
  {
    var after := Apply(s, Request(t, id));
    if ReusesUnsettled(s, id) {
      var p :| p in s.procs && s.procs[p].id == id && s.procs[p].monitor.Settling?;
      assert s.starts == map[];
      var settle := MonitorSettles(p);
      var ended := Apply(after, settle);
      assert ended.starts.Keys == {t};
      UnguardedStartOrphans(ended, t);
      OrphanableBefore(after, settle);
    } else {
      CarefulStepKeepsInv(s, Request(t, id));
      InvNeverOrphans(after);
    }
  }

  // ----- Careful runs recover -----

  /** Whatever a careful run has reached, it can go on to admit any new job. */
  ghost predicate Admissible(s: State, id: nat) {
    exists steps, t :: CarefulRun(s, steps, t) && Admitted(t, id)
  }

  lemma {:induction false} AdmissibleBefore(s: State, step: Step, id: nat)
    requires Enabled(s, step) && Careful(s, step) && Admissible(Apply(s, step), id)
    ensures Admissible(s, id)
  {
    var steps, t :| CarefulRun(Apply(s, step), steps, t) && Admitted(t, id);
    assert ([step] + steps)[1..] == steps;
    assert CarefulRun(s, [step] + steps, t);
  }

  lemma {:induction false} NowAdmissible(s: State, id: nat)
    requires Admitted(s, id)
    ensures Admissible(s, id)
  {
    assert CarefulRun(s, [], s);
  }

  /** In every state that careful runs reach, the current start, child and monitor can finish, and a
      job of any id is then admitted: admission is never lost. */
  lemma {:induction false} AdmissionRecovers(s: Good, id: nat)
    ensures Admissible(s, id)
  {
    if s.starts != map[] {
      var t :| t in s.starts;
      StartLands(s, t, id);
    } else {
      IdleRecovers(s, id);
    }
  }

  lemma {:induction false} StartLands(s: State, t: nat, id: nat)
    requires Inv(s) && t in s.starts
    ensures Admissible(s, id)
  {
    assert InFlightOk(s, t);
    LandingEmpties(s, t);
    if s.starts[t].Spawned? {
      CarefulStepKeepsInv(s, CommitStart(t));
      IdleRecovers(Apply(s, CommitStart(t)), id);
      AdmissibleBefore(s, CommitStart(t), id);
    } else {
      NowAdmissible(Apply(s, SpawnFails(t)), id);
      AdmissibleBefore(s, SpawnFails(t), id);
    }
  }

  lemma {:induction false} IdleRecovers(s: State, id: nat)
    requires Inv(s) && s.starts == map[]
    ensures Admissible(s, id)
  {
    if s.slots.child.Some? && !ChildReaped(s) {
      ChildGoes(s, s.slots.child.value, id);
    } else if s.slots.job.Some? && s.slots.job.value.state == Running {
      assert JobIsWatched(s);
      Settles(s, s.slots.child.value, id);
    } else {
      NowAdmissible(s, id);
    }
  }

  /** The recorded child exits, if it has not, and is collected. */
  lemma {:induction false} ChildGoes(s: State, p: nat, id: nat)
    requires Inv(s) && s.starts == map[] && s.slots.child == Some(p) && !s.procs[p].reaped
    ensures Admissible(s, id)
    decreases if s.procs[p].exited.None? then 1 else 0
  {
    assert s.procs[p].monitor.Waiting?;
    if s.procs[p].exited.None? {
      CarefulStepKeepsInv(s, Exit(p, 0));
      ChildGoes(Apply(s, Exit(p, 0)), p, id);
      AdmissibleBefore(s, Exit(p, 0), id);
    } else {
      CarefulStepKeepsInv(s, Reap(p, false));
      Settles(Apply(s, Reap(p, false)), p, id);
      AdmissibleBefore(s, Reap(p, false), id);
    }
  }

  lemma {:induction false} Settles(s: State, p: nat, id: nat)
    requires Inv(s) && s.starts == map[] && s.slots.child == Some(p) && s.procs[p].monitor.Settling?
    ensures Admissible(s, id)
  {
    assert MonitorOk(s, p);
    var after := Apply(s, MonitorSettles(p));
    NowAdmissible(after, id);
    AdmissibleBefore(s, MonitorSettles(p), id);
  }

  /** Cancel in the window, a second request whose spawn fails, then the first spawn: the commit
      finds no job and raises, and its child is orphaned. */
  lemma {:induction false} CommitWithoutJobOrphans(a: nat, b: nat)
    requires a != b
    ensures var steps := [Request(0, a), CancelRequest(a), Request(1, b), SpawnFails(1), SpawnOk(0, 7), CommitStart(0)];
      exists s :: AnyRun(INITIAL, steps, s) && Orphaned(s, 7)
  {
    var s4 := State(Slots(None, None), map[0 := Spawning(a)], map[]);
    var s2 := State(Slots(Some(Job(a, -1, Cancelled, None)), None), map[0 := Spawning(a)], map[]);
    var rest := [SpawnOk(0, 7), CommitStart(0)];
    var t := LoneSpawnOrphans(s4, a);
    SecondStartFails(s2, s4, a, b, rest, t);
    var s1 := Apply(INITIAL, Request(0, a));
    assert Apply(s1, CancelRequest(a)) == s2;
    hide Apply, Enabled, Orphaned, AnyRun;
    var r2 := [Request(1, b)] + ([SpawnFails(1)] + rest);
    OneStepMore(s1, CancelRequest(a), r2, t);
    OneStepMore(INITIAL, Request(0, a), [CancelRequest(a)] + r2, t);
    assert [Request(0, a)] + ([CancelRequest(a)] + r2) ==
      [Request(0, a), CancelRequest(a), Request(1, b), SpawnFails(1), SpawnOk(0, 7), CommitStart(0)];
  }

  lemma {:induction false} SecondStartFails(s: State, after: State, a: nat, b: nat, rest: seq<Step>, t: State)
    requires s == State(Slots(Some(Job(a, -1, Cancelled, None)), None), map[0 := Spawning(a)], map[])
    requires after == State(Slots(None, None), map[0 := Spawning(a)], map[]) && AnyRun(after, rest, t)
    ensures AnyRun(s, [Request(1, b)] + ([SpawnFails(1)] + rest), t)
  {
    hide AnyRun;
    var s3 := Apply(s, Request(1, b));
    assert Apply(s3, SpawnFails(1)) == after;
    hide Apply, Enabled;
    OneStepMore(s3, SpawnFails(1), rest, t);
    OneStepMore(s, Request(1, b), [SpawnFails(1)] + rest, t);
  }

  lemma {:induction false} LoneSpawnOrphans(s: State, a: nat) returns (t: State)
    requires s == State(Slots(None, None), map[0 := Spawning(a)], map[])
    ensures AnyRun(s, [SpawnOk(0, 7), CommitStart(0)], t) && Orphaned(t, 7)
  {
    var spawned := Apply(s, SpawnOk(0, 7));
    t := Apply(spawned, CommitStart(0));
    assert t.starts == map[] && Orphaned(t, 7);
    hide Apply, Enabled, Orphaned;
    assert AnyRun(t, [], t);
    OneStepMore(spawned, CommitStart(0), [], t);
    OneStepMore(s, SpawnOk(0, 7), [CommitStart(0)], t);
    assert [SpawnOk(0, 7)] + [CommitStart(0)] == [SpawnOk(0, 7), CommitStart(0)];
  }

  lemma {:induction false} OneStepMore(s: State, step: Step, rest: seq<Step>, t: State)
    requires Enabled(s, step) && AnyRun(Apply(s, step), rest, t)
    ensures AnyRun(s, [step] + rest, t)
  {
    assert ([step] + rest)[1..] == rest;
  }

  /** After that no start is ever admitted again, whatever happens, even the child's own exit. */
  lemma {:induction false} OrphanBlocksForever(s: State, p: nat, steps: seq<Step>, t: State, id: nat)
    requires Orphaned(s, p) && AnyRun(s, steps, t)
    ensures Orphaned(t, p) && !Admitted(t, id)
    decreases |steps|
  {
    if steps != [] {
      OrphanBlocksForever(Apply(s, steps[0]), p, steps[1..], t, id);
    }
  }
}
