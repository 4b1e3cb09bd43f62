/**
  The gate on operations in flight (LogImpl::queue_op and LogImpl::finisher_entry_ in
  src/libzlog/log_impl.cc). Each step is one critical section under the log's lock; callers and
  finisher threads interleave freely.
  */
module Gate {

  /** A caller that waits for its turn; `woken` is the flag its condition variable waits for. */
  datatype Waiter = Waiter(op: nat, woken: bool)

  /** `waiters` has the newest in front. `running` are the ops that finisher threads have taken. */
  datatype State = State(num: int, pending: seq<nat>, running: seq<nat>, waiters: seq<Waiter>, done: seq<nat>)

  datatype Step =
    | Arrive(op: nat)
    | Wake(i: nat)
    | Take
    | Finish(j: nat)

  const BEGIN := State(0, [], [], [], [])

  function Enqueue(s: State, op: nat): State {
    s.(num := s.num + 1, pending := s.pending + [op])
  }

  function Without<T>(l: seq<T>, i: nat): seq<T>
    requires i < |l|
  {
    l[..i] + l[i + 1..]
  }

  /** The step can be made. */
  predicate Enabled(s: State, step: Step) {
    match step
    case Arrive(_) => true
    case Wake(i) => i < |s.waiters| && s.waiters[i].woken
    case Take => s.pending != []
    case Finish(j) => j < |s.running|
  }

  /** One critical section; `max` is `max_inflight_ops`. */
  function Do(max: nat, s: State, step: Step): State
    requires Enabled(s, step)
  {
    match step
    case Arrive(op) =>
      if s.num >= max then s.(waiters := [Waiter(op, false)] + s.waiters) else Enqueue(s, op)
    case Wake(i) => Enqueue(s.(waiters := Without(s.waiters, i)), s.waiters[i].op)
    case Take => s.(pending := s.pending[1..], running := s.running + [s.pending[0]])
    case Finish(j) =>
      var s1 := s.(num := s.num - 1, running := Without(s.running, j), done := s.done + [s.running[j]]);
      if s.waiters == [] then s1
      else
        var last := |s.waiters| - 1;
        s1.(waiters := s.waiters[last := s.waiters[last].(woken := true)])
  }

  /** The states that runs reach. */
  ghost predicate Reaches(max: nat, steps: seq<Step>, s: State) {
    if steps == [] then s == BEGIN
    else
      var n := |steps| - 1;
      exists s0 :: Reaches(max, steps[..n], s0) && Enabled(s0, steps[n]) && s == Do(max, s0, steps[n])
  }

  ghost predicate Reachable(max: nat, s: State) {
    exists steps :: Reaches(max, steps, s)
  }

  // ----- the invariant ---------------------------------------------------------------------------

  /** Only the oldest waiter may be woken. */
  predicate OnlyOldest(waiters: seq<Waiter>) {
    forall i :: 0 <= i < |waiters| - 1 ==> !waiters[i].woken
  }

  predicate Woken(waiters: seq<Waiter>) {
    waiters != [] && waiters[|waiters| - 1].woken
  }

  predicate Inv(max: nat, s: State) {
    && s.num == |s.pending| + |s.running|
    && s.num + (if Woken(s.waiters) then 1 else 0) <= max + 1
    && OnlyOldest(s.waiters)
    && (max > 0 && s.waiters != [] ==> s.num > 0 || Woken(s.waiters))
  }

  lemma {:induction false} InvKept(max: nat, s: State, step: Step)
    requires Inv(max, s) && Enabled(s, step)
    ensures Inv(max, Do(max, s, step))
    ensures step.Finish? ==> s.num > 0
  {
    var s' := Do(max, s, step);
    match step {
      case Arrive(op) =>
        if s.num >= max {
          assert forall i :: 0 < i < |s'.waiters| ==> s'.waiters[i] == s.waiters[i - 1];
        }
      case Wake(i) =>
        assert i == |s.waiters| - 1;
        assert s'.waiters == s.waiters[..i];
      case Take =>
      case Finish(j) =>
    }
  }

  lemma {:induction false} InvReached(max: nat, steps: seq<Step>, s: State)
    requires Reaches(max, steps, s)
    ensures Inv(max, s)
    decreases |steps|
  {
    if steps != [] {
      var n := |steps| - 1;
      var s0 :| Reaches(max, steps[..n], s0) && Enabled(s0, steps[n]) && s == Do(max, s0, steps[n]);
      InvReached(max, steps[..n], s0);
      InvKept(max, s0, steps[n]);
    }
  }

  /**
    In every interleaving the counter counts the pending and the running operations, at most one
    operation more than allowed is in flight, and no waiter but the oldest is woken.
    */
  lemma {:induction false} GateBounds(max: nat, s: State)
    requires Reachable(max, s)
    ensures s.num == |s.pending| + |s.running| && s.num <= max + 1
    ensures forall i :: 0 <= i < |s.waiters| - 1 ==> !s.waiters[i].woken
  {
    hide Reaches;
    var steps :| Reaches(max, steps, s);
    InvReached(max, steps, s);
  }

  /** The run that fills the gate of one operation with two. */
  const OVERFULL := [Arrive(0), Arrive(1), Take, Finish(0), Arrive(2), Wake(0)]

  function Trace(i: nat): State
    requires i <= 6
  {
    if i == 0 then BEGIN
    else if i == 1 then State(1, [0], [], [], [])
    else if i == 2 then State(1, [0], [], [Waiter(1, false)], [])
    else if i == 3 then State(1, [], [0], [Waiter(1, false)], [])
    else if i == 4 then State(0, [], [], [Waiter(1, true)], [0])
    else if i == 5 then State(1, [2], [], [Waiter(1, true)], [0])
    else State(2, [2, 1], [], [], [0])
  }

  lemma {:induction false} TraceStep(i: nat)
    requires i < 6
    ensures Enabled(Trace(i), OVERFULL[i]) && Do(1, Trace(i), OVERFULL[i]) == Trace(i + 1)
  {
  }

  lemma {:induction false} TraceReached(i: nat)
    requires i <= 6
    ensures Reaches(1, OVERFULL[..i], Trace(i))
    decreases i
  {
    hide Do, Enabled;
    if i > 0 {
      TraceReached(i - 1);
      TraceStep(i - 1);
      ReachesNext(1, OVERFULL[..i - 1], Trace(i - 1), OVERFULL[i - 1]);
      assert OVERFULL[..i] == OVERFULL[..i - 1] + [OVERFULL[i - 1]];
    }
  }

  /** The bound is tight: a newcomer may take the place meant for a woken waiter. */
  lemma {:induction false} BoundIsReached()
    ensures Reachable(1, State(2, [2, 1], [], [], [0]))
  {
    hide Reaches;
    TraceReached(6);
    assert Trace(6) == State(2, [2, 1], [], [], [0]);
  }

  lemma {:induction false} ReachesNext(max: nat, steps: seq<Step>, s: State, step: Step)
    requires Reaches(max, steps, s) && Enabled(s, step)
    ensures Reaches(max, steps + [step], Do(max, s, step))
  {
    assert (steps + [step])[..|steps|] == steps;
  }

  // ----- no wakeup is lost -----------------------------------------------------------------------

  /** Whoever waits is waiting for an operation in flight, or has been woken. */
  predicate NoneLost(s: State) {
    s.waiters != [] ==> s.num > 0 || exists i :: 0 <= i < |s.waiters| && s.waiters[i].woken
  }

  /** No wakeup is ever lost, exactly if at least one operation is allowed in flight. */
  lemma {:induction false} NoLostWakeupIff(max: nat)
    ensures max > 0 <==> forall s :: Reachable(max, s) ==> NoneLost(s)
  {
    if max > 0 {
      forall s | Reachable(max, s) ensures NoneLost(s) {
        hide Reaches;
        var steps :| Reaches(max, steps, s);
        InvReached(max, steps, s);
        if Woken(s.waiters) { assert s.waiters[|s.waiters| - 1].woken; }
      }
    } else {
      var s := Do(0, BEGIN, Arrive(0));
      assert Reaches(0, [], BEGIN);
      ReachesNext(0, [], BEGIN, Arrive(0));
      assert Reachable(0, s) && !NoneLost(s);
    }
  }

  /** What remains to be done, with enough weight for each stage an operation has to pass. */
  function Work(s: State): nat {
    3 * |s.waiters| + 2 * |s.pending| + |s.running|
  }

  lemma {:induction false} WorkShrinks(max: nat, s: State, step: Step)
    requires Enabled(s, step) && !step.Arrive?
    ensures Work(Do(max, s, step)) < Work(s)
  {
  }

  /** So without newcomers everything completes: as long as something is left, some step can be made. */
  lemma {:induction false} NeverStuck(max: nat, s: State)
    requires max > 0 && Reachable(max, s) && Work(s) > 0
    ensures exists step: Step :: !step.Arrive? && Enabled(s, step)
  {
    NoLostWakeupIff(max);
    GateBounds(max, s);
    hide Reachable;
    if s.pending != [] {
      assert Enabled(s, Take);
    } else if s.running != [] {
      assert Enabled(s, Finish(0));
    } else {
      var i :| 0 <= i < |s.waiters| && s.waiters[i].woken;
      assert Enabled(s, Wake(i));
    }
  }

  // ----- conservation ----------------------------------------------------------------------------

  /** The waiting operations. */
  function Waiting(waiters: seq<Waiter>): multiset<nat> {
    if waiters == [] then multiset{} else multiset{waiters[0].op} + Waiting(waiters[1..])
  }

  /** Everything that is somewhere. */
  function All(s: State): multiset<nat> {
    Waiting(s.waiters) + multiset(s.pending) + multiset(s.running) + multiset(s.done)
  }

  function Arrived(steps: seq<Step>): multiset<nat> {
    if steps == [] then multiset{}
    else
      var n := |steps| - 1;
      if steps[n].Arrive? then Arrived(steps[..n]) + multiset{steps[n].op} else Arrived(steps[..n])
  }

  lemma {:induction false} WaitingWithout(waiters: seq<Waiter>, i: nat)
    requires i < |waiters|
    ensures Waiting(waiters) == Waiting(Without(waiters, i)) + multiset{waiters[i].op}
    decreases |waiters|
  {
    var rest := Without(waiters, i);
    if i == 0 {
      assert rest == waiters[1..];
    } else {
      WaitingWithout(waiters[1..], i - 1);
      assert rest[1..] == Without(waiters[1..], i - 1);
    }
  }

  lemma {:induction false} WaitingSame(a: seq<Waiter>, b: seq<Waiter>)
    requires |a| == |b| && forall i :: 0 <= i < |a| ==> a[i].op == b[i].op
    ensures Waiting(a) == Waiting(b)
    decreases |a|
  {
    if a != [] { WaitingSame(a[1..], b[1..]); }
  }

  lemma {:induction false} WithoutElements(l: seq<nat>, i: nat)
    requires i < |l|
    ensures multiset(l) == multiset(Without(l, i)) + multiset{l[i]}
  {
    assert l == l[..i] + [l[i]] + l[i + 1..];
  }

  lemma {:induction false} AllEnqueued(s: State, op: nat)
    ensures All(Enqueue(s, op)) == All(s) + multiset{op}
  {
    hide Waiting;
    assert multiset(s.pending + [op]) == multiset(s.pending) + multiset{op};
  }

  lemma {:induction false} AllWaiting(s: State, op: nat)
    ensures All(s.(waiters := [Waiter(op, false)] + s.waiters)) == All(s) + multiset{op}
  {
    var waiters := [Waiter(op, false)] + s.waiters;
    assert waiters[1..] == s.waiters;
    assert Waiting(waiters) == multiset{op} + Waiting(s.waiters);
    hide Waiting;
  }

  lemma {:induction false} AllWithout(s: State, i: nat)
    requires i < |s.waiters|
    ensures All(s) == All(s.(waiters := Without(s.waiters, i))) + multiset{s.waiters[i].op}
  {
    WaitingWithout(s.waiters, i);
    hide Waiting;
  }

  lemma {:induction false} AllTaken(s: State)
    requires s.pending != []
    ensures All(s.(pending := s.pending[1..], running := s.running + [s.pending[0]])) == All(s)
  {
    hide Waiting;
    var op, rest := s.pending[0], s.pending[1..];
    assert s.pending == [op] + rest;
    assert multiset(s.pending) == multiset{op} + multiset(rest);
    assert multiset(s.running + [op]) == multiset(s.running) + multiset{op};
  }

  lemma {:induction false} AllFinished(max: nat, s: State, j: nat)
    requires j < |s.running|
    ensures All(Do(max, s, Finish(j))) == All(s)
  {
    var s' := Do(max, s, Finish(j));
    var op := s.running[j];
    WaitingSame(s.waiters, s'.waiters);
    hide Waiting;
    WithoutElements(s.running, j);
    assert multiset(s.done + [op]) == multiset(s.done) + multiset{op};
    assert multiset(s'.running) + multiset(s'.done) == multiset(s.running) + multiset(s.done);
  }

  lemma {:induction false} AllKept(max: nat, s: State, step: Step)
    requires Enabled(s, step)
    ensures All(Do(max, s, step)) == All(s) + (if step.Arrive? then multiset{step.op} else multiset{})
  {
    hide All;
    match step {
      case Arrive(op) =>
        AllWaiting(s, op);
        AllEnqueued(s, op);
      case Wake(i) =>
        AllWithout(s, i);
        AllEnqueued(s.(waiters := Without(s.waiters, i)), s.waiters[i].op);
      case Take => AllTaken(s);
      case Finish(j) => AllFinished(max, s, j);
    }
  }

  /** No operation is lost or duplicated: what arrived is waiting, pending, running or done. */
  lemma {:induction false} OperationsConserved(max: nat, steps: seq<Step>, s: State)
    requires Reaches(max, steps, s)
    ensures Arrived(steps) == All(s)
    decreases |steps|
  {
    if steps != [] {
      var n := |steps| - 1;
      var s0 :| Reaches(max, steps[..n], s0) && Enabled(s0, steps[n]) && s == Do(max, s0, steps[n]);
      OperationsConserved(max, steps[..n], s0);
      AllKept(max, s0, steps[n]);
    }
  }

  // ----- order -----------------------------------------------------------------------------------

  /** What a run has done in which order: who was let through and who was taken, who had to wait and who resumed. */
  datatype Log = Log(admitted: seq<nat>, taken: seq<nat>, waited: seq<nat>, resumed: seq<nat>)

  function Note(max: nat, s: State, step: Step, log: Log): Log
    requires Enabled(s, step)
  {
    match step
    case Arrive(op) =>
      if s.num >= max then log.(waited := log.waited + [op]) else log.(admitted := log.admitted + [op])
    case Wake(i) =>
      log.(admitted := log.admitted + [s.waiters[i].op], resumed := log.resumed + [s.waiters[i].op])
    case Take => log.(taken := log.taken + [s.pending[0]])
    case Finish(_) => log
  }

  /** The run leads to `s` and has this log. */
  ghost predicate Logs(max: nat, steps: seq<Step>, s: State, log: Log) {
    if steps == [] then s == BEGIN && log == Log([], [], [], [])
    else
      var n := |steps| - 1;
      exists s0, log0 :: Logs(max, steps[..n], s0, log0) && Enabled(s0, steps[n])
        && s == Do(max, s0, steps[n]) && log == Note(max, s0, steps[n], log0)
  }

  lemma {:induction false} EveryRunLogs(max: nat, steps: seq<Step>, s: State)
    requires Reaches(max, steps, s)
    ensures exists log :: Logs(max, steps, s, log)
    decreases |steps|
  {
    hide Do, Enabled, Note;
    if steps == [] {
      assert Logs(max, steps, s, Log([], [], [], []));
    } else {
      var n := |steps| - 1;
      var s0 :| Reaches(max, steps[..n], s0) && Enabled(s0, steps[n]) && s == Do(max, s0, steps[n]);
      EveryRunLogs(max, steps[..n], s0);
      var log0 :| Logs(max, steps[..n], s0, log0);
      assert Logs(max, steps, s, Note(max, s0, steps[n], log0));
    }
  }

  /** The waiting operations, oldest first. */
  function OldestFirst(waiters: seq<Waiter>): seq<nat> {
    if waiters == [] then [] else OldestFirst(waiters[1..]) + [waiters[0].op]
  }

  lemma {:induction false} OldestIs(waiters: seq<Waiter>)
    requires waiters != []
    ensures var n := |waiters| - 1; OldestFirst(waiters) == [waiters[n].op] + OldestFirst(waiters[..n])
    decreases |waiters|
  {
    var n := |waiters| - 1;
    if n > 0 {
      OldestIs(waiters[1..]);
      assert waiters[1..][..n - 1] == waiters[..n][1..];
    }
  }

  lemma {:induction false} FlagsDoNotMatter(a: seq<Waiter>, b: seq<Waiter>)
    requires |a| == |b| && forall i :: 0 <= i < |a| ==> a[i].op == b[i].op
    ensures OldestFirst(a) == OldestFirst(b)
    decreases |a|
  {
    if a != [] { FlagsDoNotMatter(a[1..], b[1..]); }
  }

  ghost predicate InOrder(s: State, log: Log) {
    log.admitted == log.taken + s.pending && log.waited == log.resumed + OldestFirst(s.waiters)
  }

  lemma {:induction false} ArrivesLast(waiters: seq<Waiter>, w: Waiter)
    ensures OldestFirst([w] + waiters) == OldestFirst(waiters) + [w.op]
  {
    assert ([w] + waiters)[1..] == waiters;
  }

  lemma {:induction false} OrderKept(max: nat, s: State, step: Step, log: Log)
    requires Inv(max, s) && Enabled(s, step) && InOrder(s, log)
    ensures InOrder(Do(max, s, step), Note(max, s, step, log))
  {
    hide OldestFirst;
    match step {
      case Arrive(op) => ArrivesLast(s.waiters, Waiter(op, false));
      case Wake(i) => ResumesFirst(s.waiters, i);
      case Take => assert s.pending == [s.pending[0]] + s.pending[1..];
      case Finish(j) => FlagsDoNotMatter(s.waiters, Do(max, s, step).waiters);
    }
  }

  /** The waiter that may resume is the oldest. */
  lemma {:induction false} ResumesFirst(waiters: seq<Waiter>, i: nat)
    requires OnlyOldest(waiters) && i < |waiters| && waiters[i].woken
    ensures OldestFirst(waiters) == [waiters[i].op] + OldestFirst(Without(waiters, i))
  {
    assert i == |waiters| - 1;
    OldestIs(waiters);
    assert Without(waiters, i) == waiters[..i];
  }

  /**
    Nobody overtakes within a queue: operations are taken in the order in which they were let through, and
    callers that have to wait resume in the order in which they arrived.
    */
  lemma {:induction false} FirstInFirstOut(max: nat, steps: seq<Step>, s: State, log: Log)
    requires Logs(max, steps, s, log)
    ensures log.admitted == log.taken + s.pending
    ensures log.waited == log.resumed + OldestFirst(s.waiters)
    ensures Inv(max, s)
    decreases |steps|
  {
    hide Do, Enabled, Note;
    if steps != [] {
      var n := |steps| - 1;
      var s0, log0 :| Logs(max, steps[..n], s0, log0) && Enabled(s0, steps[n])
        && s == Do(max, s0, steps[n]) && log == Note(max, s0, steps[n], log0);
      FirstInFirstOut(max, steps[..n], s0, log0);
      InvKept(max, s0, steps[n]);
      OrderKept(max, s0, steps[n], log0);
    }
  }

  // ----- the code --------------------------------------------------------------------------------

  /** The gate's fields in LogImpl and the critical sections that change them. */
  class OpGate {
    const max: nat
    var numInflight: int
    var pending: seq<nat>
    var running: seq<nat>
    var waiters: seq<Waiter>
    var done: seq<nat>

    ghost function Now(): State
      reads this
    {
      State(numInflight, pending, running, waiters, done)
    }

    ghost predicate Valid()
      reads this
    {
      Inv(max, Now())
    }

    constructor (maxInflight: nat)
      ensures Valid() && max == maxInflight && Now() == BEGIN
    {
      max := maxInflight;
      numInflight, pending, running, waiters, done := 0, [], [], [], [];
    }

    /** queue_op up to the point where the caller is through or has to wait. */
    method QueueOp(op: nat) returns (waits: bool)
      requires Valid()
      modifies this
      ensures Valid() && Now() == Do(max, old(Now()), Arrive(op))
      ensures waits <==> old(numInflight) >= max
      ensures if waits then pending == old(pending) && waiters == [Waiter(op, false)] + old(waiters)
              else pending == old(pending) + [op] && waiters == old(waiters)
    {
      ghost var before := Now();
      waits := numInflight >= max;
      if waits {
        waiters := [Waiter(op, false)] + waiters;
      } else {
        numInflight := numInflight + 1;
        pending := pending + [op];
      }
      InvKept(max, before, Arrive(op));
    }

    /** queue_op after its wait. */
    method Resume(i: nat)
      requires Valid() && i < |waiters| && waiters[i].woken
      modifies this
      ensures Valid() && Now() == Do(max, old(Now()), Wake(i))
      ensures i == |old(waiters)| - 1
    {
      ghost var before := Now();
      var op := waiters[i].op;
      waiters := waiters[..i] + waiters[i + 1..];
      numInflight := numInflight + 1;
      pending := pending + [op];
      InvKept(max, before, Wake(i));
    }

    /** A finisher thread takes the next operation. */
    method TakeOp() returns (op: nat)
      requires Valid() && pending != []
      modifies this
      ensures Valid() && Now() == Do(max, old(Now()), Take) && op == old(pending[0])
    {
      ghost var before := Now();
      op := pending[0];
      pending := pending[1..];
      running := running + [op];
      InvKept(max, before, Take);
    }

    /** A finisher thread is through with an operation. */
    method FinishOp(j: nat)
      requires Valid() && j < |running|
      modifies this
      ensures Valid() && Now() == Do(max, old(Now()), Finish(j))
    {
      ghost var before := Now();
      assert numInflight > 0;
      done := done + [running[j]];
      running := running[..j] + running[j + 1..];
      numInflight := numInflight - 1;
      if waiters != [] {
        var last := |waiters| - 1;
        waiters := waiters[last := waiters[last].(woken := true)];
      }
      InvKept(max, before, Finish(j));
    }
  }
}
