/** Sequences of calls on one easing, and the event trace they fire. Used to state
    how Started, Finished and Stopped alternate: an easing terminates (finishes or is
    stopped) at most once per Start. */
module EasingTraces {
  import opened EasingTypes
  import opened EasingFunctions
  import opened Easings

  /** A call a host can make on an easing. */
  datatype Op<T> =
    | StartOp(from: T, to: T, duration: real, kind: EasingType, delay: real)
    | StopOp
    | SetTimeOp(time: real)
    | UpdateOp(dt: real)

  /** Every Start in the sequence meets Start's precondition. */
  predicate ValidOps<T>(ops: seq<Op<T>>) {
    forall i :: 0 <= i < |ops| && ops[i].StartOp? ==> ops[i].duration > 0.0 && ops[i].delay >= 0.0
  }

  predicate StartFree<T>(ops: seq<Op<T>>) {
    forall i :: 0 <= i < |ops| ==> !ops[i].StartOp?
  }

  /** One call. */
  function Exec<T>(e: Easing<T>, op: Op<T>, compute: Strategy<T>): (r: Step<T>)
    requires WellFormed(e)
    requires op.StartOp? ==> op.duration > 0.0 && op.delay >= 0.0
    ensures WellFormed(r.next)
    ensures !op.StartOp? && !e.running ==> r == Step(e, [])
  {
    match op
    case StartOp(from, to, duration, kind, delay) => Start(from, to, duration, kind, delay, compute)
    case StopOp => Stop(e)
    case SetTimeOp(v) => SetTime(e, v, compute)
    case UpdateOp(dt) => var u := Update(e, dt, compute); Step(u.next, u.events)
  }

  /** A sequence of calls, with the events of all of them concatenated in order. */
  function Run<T>(e: Easing<T>, ops: seq<Op<T>>, compute: Strategy<T>): (r: Step<T>)
    requires WellFormed(e) && ValidOps(ops)
    ensures WellFormed(r.next)
    decreases |ops|
  {
    if ops == [] then
      Step(e, [])
    else
      var s := Exec(e, ops[0], compute);
      var rest := Run(s.next, ops[1..], compute);
      Step(rest.next, s.events + rest.events)
  }

  /** The number of events in `evs` that end an easing run. */
  function Terminations<T>(evs: seq<Event<T>>): nat {
    if evs == [] then 0
    else (if evs[0].Finished? || evs[0].Stopped? then 1 else 0) + Terminations(evs[1..])
  }

  function Starts<T>(evs: seq<Event<T>>): nat {
    if evs == [] then 0
    else (if evs[0].Started? then 1 else 0) + Starts(evs[1..])
  }

  function Finishes<T>(evs: seq<Event<T>>): nat {
    if evs == [] then 0
    else (if evs[0].Finished? then 1 else 0) + Finishes(evs[1..])
  }

  function Flag(b: bool): nat {
    if b then 1 else 0
  }

  lemma {:induction false} CountsDistribute<T>(a: seq<Event<T>>, b: seq<Event<T>>)
    ensures Terminations(a + b) == Terminations(a) + Terminations(b)
    ensures Starts(a + b) == Starts(a) + Starts(b)
    ensures Finishes(a + b) == Finishes(a) + Finishes(b)
  {
    if a == [] {
      assert a + b == b;
    } else {
      assert (a + b)[0] == a[0];
      assert (a + b)[1..] == a[1..] + b;
      CountsDistribute(a[1..], b);
    }
  }

  /** The counts of a two-event trace, event by event. */
  lemma PairCounts<T>(x: Event<T>, y: Event<T>)
    ensures Starts([x, y]) == Flag(x.Started?) + Flag(y.Started?)
    ensures Terminations([x, y]) == Flag(x.Finished? || x.Stopped?) + Flag(y.Finished? || y.Stopped?)
  {
    assert [x, y][1..] == [y];
    assert [y][1..] == [];
    assert Starts([y]) == Flag(y.Started?) && Terminations([y]) == Flag(y.Finished? || y.Stopped?);
  }

  lemma {:induction false} FinishesAreTerminations<T>(evs: seq<Event<T>>)
    ensures Finishes(evs) <= Terminations(evs)
  {
    if evs != [] {
      FinishesAreTerminations(evs[1..]);
    }
  }

  /** On one call: a running easing that stops running fires exactly one termination,
      anything else fires none, and only Start fires Started. */
  lemma ExecBalance<T>(e: Easing<T>, op: Op<T>, compute: Strategy<T>)
    requires WellFormed(e)
    requires op.StartOp? ==> op.duration > 0.0 && op.delay >= 0.0
    ensures var r := Exec(e, op, compute);
            Terminations(r.events) + Flag(r.next.running) + Flag(op.StartOp? && e.running)
              == Starts(r.events) + Flag(e.running)
    ensures Starts(Exec(e, op, compute).events) == Flag(op.StartOp?)
  {
    var r := Exec(e, op, compute);
    match op
    case StartOp(_, _, _, _, _) =>
      assert r.events == [Started, ValueChanged(r.next.value)];
      PairCounts(Started, ValueChanged(r.next.value));
      assert r.next.running;
    case StopOp =>
    case SetTimeOp(_) =>
    case UpdateOp(dt) =>
      if e.running {
        var u := Update(e, dt, compute);
        if u.next.running {
          assert r.events == [ValueChanged(u.next.value)];
        } else {
          assert r.events == [ValueChanged(u.next.value), Finished];
          PairCounts(ValueChanged(u.next.value), Finished);
        }
      }
  }

  /** Over a sequence of calls without Start, a running easing terminates exactly when
      it ends up not running, and then exactly once; a non-running one fires nothing. */
  lemma {:induction false} TerminationBalance<T>(e: Easing<T>, ops: seq<Op<T>>, compute: Strategy<T>)
    requires WellFormed(e) && ValidOps(ops) && StartFree(ops)
    ensures var r := Run(e, ops, compute);
            Terminations(r.events) + Flag(r.next.running) == Flag(e.running)
    ensures !e.running ==> Run(e, ops, compute) == Step(e, [])
    decreases |ops|
  {
    if ops != [] {
      var s := Exec(e, ops[0], compute);
      ExecBalance(e, ops[0], compute);
      assert ValidOps(ops[1..]) && StartFree(ops[1..]) by {
        forall i | 0 <= i < |ops[1..]| ensures ops[1..][i] == ops[i + 1] { }
      }
      TerminationBalance(s.next, ops[1..], compute);
      CountsDistribute(s.events, Run(s.next, ops[1..], compute).events);
    }
  }

  /** Finished is fired at most once per Start: over any sequence of calls the easing
      terminates no more often than it was running at the outset or was started. */
  lemma {:induction false} FinishedAtMostOncePerStart<T>(e: Easing<T>, ops: seq<Op<T>>, compute: Strategy<T>)
    requires WellFormed(e) && ValidOps(ops)
    ensures var r := Run(e, ops, compute);
            Finishes(r.events) <= Terminations(r.events)
            && Terminations(r.events) + Flag(r.next.running) <= Starts(r.events) + Flag(e.running)
    decreases |ops|
  {
    var r := Run(e, ops, compute);
    FinishesAreTerminations(r.events);
    if ops != [] {
      var s := Exec(e, ops[0], compute);
      ExecBalance(e, ops[0], compute);
      assert ValidOps(ops[1..]) by {
        forall i | 0 <= i < |ops[1..]| ensures ops[1..][i] == ops[i + 1] { }
      }
      FinishedAtMostOncePerStart(s.next, ops[1..], compute);
      CountsDistribute(s.events, Run(s.next, ops[1..], compute).events);
    }
  }

  /** Between two Starts an easing finishes at most once. */
  lemma FinishedAtMostOnce<T>(e: Easing<T>, ops: seq<Op<T>>, compute: Strategy<T>)
    requires WellFormed(e) && ValidOps(ops) && StartFree(ops)
    ensures Finishes(Run(e, ops, compute).events) <= 1
    ensures !e.running ==> Finishes(Run(e, ops, compute).events) == 0
  {
    TerminationBalance(e, ops, compute);
    FinishesAreTerminations(Run(e, ops, compute).events);
  }
}
