/** Threads that take a mutex, write the reports of one operation and release it. */
module LockedBus {
  import opened Wrappers
  import opened Bytes
  import opened Seqs

  type Wire = seq<seq<Byte>>

  /** `todo[t]` is what thread `t` has still to do; the holder of the lock has
      reports left to write; `order` is who took the lock for what, in order. */
  datatype State<Op> = State(
    todo: seq<seq<Op>>,
    holder: Option<Wire>,
    wire: Wire,
    order: seq<(nat, Op)>)

  function Init<Op>(programs: seq<seq<Op>>): State<Op> {
    State(programs, None, [], [])
  }

  datatype Step = Lock(thread: nat) | Write | Unlock

  predicate Enabled<Op>(s: State<Op>, a: Step) {
    match a
    case Lock(t) => s.holder.None? && t < |s.todo| && |s.todo[t]| > 0
    case Write => s.holder.Some? && s.holder.value != []
    case Unlock => s.holder.Some? && s.holder.value == []
  }

  function Apply<Op>(s: State<Op>, a: Step, reports: Op -> Wire): State<Op>
    requires Enabled(s, a)
  {
    match a
    case Lock(t) =>
      var op := s.todo[t][0];
      s.(todo := s.todo[t := s.todo[t][1..]], holder := Some(reports(op)), order := s.order + [(t, op)])
    case Write =>
      s.(wire := s.wire + [s.holder.value[0]], holder := Some(s.holder.value[1..]))
    case Unlock => s.(holder := None)
  }

  predicate ValidRun<Op>(s: State<Op>, steps: seq<Step>, reports: Op -> Wire)
    decreases steps
  {
    steps == [] || (Enabled(s, steps[0]) && ValidRun(Apply(s, steps[0], reports), steps[1..], reports))
  }

  function Run<Op>(s: State<Op>, steps: seq<Step>, reports: Op -> Wire): State<Op>
    requires ValidRun(s, steps, reports)
    decreases steps
  {
    if steps == [] then s else Run(Apply(s, steps[0], reports), steps[1..], reports)
  }

  function AllReports<Op>(order: seq<(nat, Op)>, reports: Op -> Wire): Wire {
    if order == [] then [] else reports(order[0].1) + AllReports(order[1..], reports)
  }

  /** The operations of one thread, in lock order. */
  function OpsOf<Op>(order: seq<(nat, Op)>, t: nat): seq<Op> {
    if order == [] then []
    else Own(order[0], t) + OpsOf(order[1..], t)
  }

  lemma {:induction false} AllReportsAppend<Op>(order: seq<(nat, Op)>, e: (nat, Op), reports: Op -> Wire)
    ensures AllReports(order + [e], reports) == AllReports(order, reports) + reports(e.1)
  {
    if order == [] {
      EmptyIsUnit([e]);
      EmptyIsUnit(reports(e.1));
    } else {
      TailOfPush(order, e);
      AllReportsAppend(order[1..], e, reports);
      Associates(reports(order[0].1), AllReports(order[1..], reports), reports(e.1));
    }
  }

  function Own<Op>(e: (nat, Op), t: nat): seq<Op> {
    if e.0 == t then [e.1] else []
  }

  lemma {:induction false} OpsOfAppend<Op>(order: seq<(nat, Op)>, e: (nat, Op), t: nat)
    ensures OpsOf(order + [e], t) == OpsOf(order, t) + Own(e, t)
  {
    if order == [] {
      EmptyIsUnit([e]);
      EmptyIsUnit(Own(e, t));
    } else {
      TailOfPush(order, e);
      OpsOfAppend(order[1..], e, t);
      Associates(Own(order[0], t), OpsOf(order[1..], t), Own(e, t));
    }
  }

  /** What the holder has left to write. */
  function Unwritten<Op>(s: State<Op>): Wire {
    if s.holder.Some? then s.holder.value else []
  }

  /** Each thread proceeds in its program order. */
  ghost predicate InProgramOrder<Op>(s: State<Op>, programs: seq<seq<Op>>) {
    && |s.todo| == |programs|
    && (forall t | 0 <= t < |programs| :: OpsOf(s.order, t) + s.todo[t] == programs[t])
    && (forall e | e in s.order :: e.0 < |programs|)
  }

  /** Only the holder's unwritten reports separate the wire from the whole
      transactions of `order`. */
  ghost predicate Atomic<Op>(s: State<Op>, reports: Op -> Wire) {
    AllReports(s.order, reports) == s.wire + Unwritten(s)
  }

  lemma StepKeepsAtomic<Op>(s: State<Op>, a: Step, reports: Op -> Wire)
    requires Atomic(s, reports) && Enabled(s, a)
    ensures Atomic(Apply(s, a, reports), reports)
  {
    match a
    case Lock(t) =>
      AllReportsAppend(s.order, (t, s.todo[t][0]), reports);
      assert s.wire + [] == s.wire;
    case Write => assert s.holder.value == [s.holder.value[0]] + s.holder.value[1..];
    case Unlock =>
  }

  /** The locked operation moves from its thread's list to the order; other threads keep theirs. */
  lemma LockMovesOne<Op>(order: seq<(nat, Op)>, t: nat, todo: seq<Op>, u: nat, others: seq<Op>)
    requires todo != []
    ensures OpsOf(order + [(t, todo[0])], t) + todo[1..] == OpsOf(order, t) + todo
    ensures u != t ==> OpsOf(order + [(t, todo[0])], u) + others == OpsOf(order, u) + others
  {
    OpsOfAppend(order, (t, todo[0]), t);
    Associates(OpsOf(order, t), [todo[0]], todo[1..]);
    ConsOfTail(todo);
    OpsOfAppend(order, (t, todo[0]), u);
    EmptyIsUnit(OpsOf(order, u));
  }

  lemma StepKeepsProgramOrder<Op>(s: State<Op>, a: Step, reports: Op -> Wire, programs: seq<seq<Op>>)
    requires InProgramOrder(s, programs) && Enabled(s, a)
    ensures InProgramOrder(Apply(s, a, reports), programs)
  {
    match a
    case Lock(t) =>
      var s' := Apply(s, a, reports);
      forall u | 0 <= u < |programs|
        ensures OpsOf(s'.order, u) + s'.todo[u] == programs[u]
      {
        LockMovesOne(s.order, t, s.todo[t], u, s.todo[u]);
      }
    case Write =>
    case Unlock =>
  }

  lemma {:induction false} RunIsSerial<Op>(s: State<Op>, steps: seq<Step>, reports: Op -> Wire, programs: seq<seq<Op>>)
    requires ValidRun(s, steps, reports)
    requires Atomic(s, reports) && InProgramOrder(s, programs)
    ensures Atomic(Run(s, steps, reports), reports) && InProgramOrder(Run(s, steps, reports), programs)
    decreases steps
  {
    if steps != [] {
      StepKeepsAtomic(s, steps[0], reports);
      StepKeepsProgramOrder(s, steps[0], reports, programs);
      RunIsSerial(Apply(s, steps[0], reports), steps[1..], reports, programs);
    }
  }

  lemma {:induction false} LockedOpComesFromItsThread<Op>(order: seq<(nat, Op)>, e: (nat, Op))
    requires e in order
    ensures e.1 in OpsOf(order, e.0)
  {
    if order[0] != e {
      assert e in order[1..];
      LockedOpComesFromItsThread(order[1..], e);
    }
  }
}
