/** How far a worker gets on its own: what any run of its steps alone comes to. */
module AckDrain {
  import opened AckLane
  import opened AckInvariant
  import opened AckOrder
  import opened AckAnswers
  import opened AckProtocol
  import opened Wrappers

  predicate WorkerOnly(run: seq<Step>) {
    forall k :: 0 <= k < |run| ==> WorkerStep(run[k])
  }

  function Rank(pc: Worker): nat {
    match pc
    case Idle => 0
    case Taken(_) => 6
    case Registered(_) => 5
    case Sending(_) => 4
    case Waiting(_) => 3
    case Clearing(_, _) => 2
    case Delivering(_, _) => 1
  }

  /** A bound for the number of steps that the worker can take by itself. */
  function StepsLeft(l: Lane): nat {
    7 * |l.buffer| + if |l.workers| == 0 then 0 else Rank(l.workers[0])
  }

  /** The worker can only wait for its frame to be written. */
  predicate MidWrite(l: Lane) {
    && |l.workers| == 1 && l.workers[0].Sending? && l.workers[0].item < |l.items|
    && l.items[l.workers[0].item].write.Pending?
  }

  /** The worker is idle with an empty queue, and every item ever enqueued has its result. */
  predicate Drained(l: Lane) {
    && NoneInHand(l) && l.buffer == [] && ItemsOf(l.resolved) == l.enqueued
    && forall k :: 0 <= k < |l.enqueued| ==>
         l.enqueued[k] < |l.items| && l.items[l.enqueued[k]].result.sent == [l.resolved[k].outcome]
  }

  ghost predicate Stuck(l: Lane) {
    forall step :: WorkerStep(step) ==> !Enabled(l, step)
  }

  // ---- Every step of the worker uses up one of the steps left ----

  lemma WorkerStepEffect(l: Lane, step: Step)
    requires |l.workers| == 1 && WorkerStep(step) && step.w == 0 && WorkerEnabled(l, step)
    ensures var l' := ApplyWorker(l, step);
            && |l'.workers| == 1 && StepsLeft(l') < StepsLeft(l)
            && l'.enqueued == l.enqueued && l'.direct == l.direct && l.resolved <= l'.resolved
            && (step.StartWrite? || MidWrite(l) || !MidWrite(l'))
  {
  }

  lemma WorkerStepUses(l: Lane, step: Step)
    requires Inv(l) && Enabled(l, step) && WorkerStep(step)
    ensures var l' := Apply(l, step);
            && |l'.workers| == |l.workers| == 1 && StepsLeft(l') < StepsLeft(l)
            && l'.enqueued == l.enqueued && l.resolved <= l'.resolved
            && (step.StartWrite? || MidWrite(l) || !MidWrite(l'))
  {
    hide Inv, WorkerEnabled, ApplyWorker, StepsLeft, MidWrite;
    OnlyWorker(l, step);
    WorkerStepEffect(l, step);
  }

  lemma {:induction false} WorkerRunUses(l: Lane, run: seq<Step>)
    requires Inv(l) && WorkerOnly(run) && Exec(l, run).Some?
    ensures var l' := Exec(l, run).value;
            && Inv(l') && |run| + StepsLeft(l') <= StepsLeft(l)
            && l'.enqueued == l.enqueued && l.resolved <= l'.resolved && |l'.workers| == |l.workers|
  {
    hide Inv, Enabled, Apply, StepsLeft;
    if run == [] {
    } else {
      WorkerRunUses(l, run[..|run| - 1]);
      var l1, step := Exec(l, run[..|run| - 1]).value, run[|run| - 1];
      WorkerStepUses(l1, step);
      StepKeeps(l1, step);
    }
  }

  // ---- A worker that has no step left ----

  /** The step a worker takes that does not start a write. */
  function Ahead(pc: Worker): Step {
    match pc
    case Idle => Dequeue(0)
    case Taken(_) => Register(0)
    case Registered(_) => RefuseSend(0)
    case Sending(_) => FinishSend(0)
    case Waiting(_) => TimeOut(0)
    case Clearing(_, _) => Clear(0)
    case Delivering(_, _) => Deliver(0)
  }

  lemma AheadEnabled(l: Lane)
    requires Inv(l) && |l.workers| == 1 && !MidWrite(l) && (NoneInHand(l) ==> l.buffer != [])
    ensures Enabled(l, Ahead(l.workers[0]))
  {
    if !l.workers[0].Idle? {
      assert InHandOk(l.workers[0], l.items[l.workers[0].item], l.log);
      assert ItemOk(l.items[l.workers[0].item], l.log);
    }
    hide ItemsOk, ClaimsOk, ResolvedOk, BufferOk, PendingOk, Conserved;
  }

  lemma EmptyIsDrained(l: Lane)
    requires Inv(l) && NoneInHand(l) && l.buffer == []
    ensures Drained(l)
  {
    assert ItemsOf(l.resolved) + [] + [] == ItemsOf(l.resolved);
    forall k | 0 <= k < |l.enqueued|
      ensures l.enqueued[k] < |l.items| && l.items[l.enqueued[k]].result.sent == [l.resolved[k].outcome]
    {
      assert ResolutionOk(l.items, l.resolved[k]);
    }
    hide ItemsOk, ClaimsOk, BufferOk, PendingOk, WorkerOk;
  }

  lemma StuckIsDrained(l: Lane)
    requires Inv(l) && |l.workers| == 1 && Stuck(l) && !MidWrite(l)
    ensures Drained(l)
  {
    if !NoneInHand(l) || l.buffer != [] {
      AheadEnabled(l);
      assert WorkerStep(Ahead(l.workers[0]));
      assert false;
    }
    EmptyIsDrained(l);
  }

  /**
   However the worker goes on by itself, it comes to an end within the steps left, and at that end every item
   enqueued has its result, unless the worker waits for a write in progress.
   */
  lemma WorkerRunsEnd(l: Lane, run: seq<Step>)
    requires Reachable(l) && |l.workers| == 1 && WorkerOnly(run) && Exec(l, run).Some?
    ensures var l' := Exec(l, run).value;
            && |run| <= StepsLeft(l) && l'.enqueued == l.enqueued && l.resolved <= l'.resolved
            && (Stuck(l') ==> Drained(l') || MidWrite(l'))
  {
    ReachableInvariant(l);
    WorkerRunUses(l, run);
    hide Inv, Reachable, WireOk, AnswersReal, AttrOk, Stuck, Drained, MidWrite, Enabled, Apply;
    var l' := Exec(l, run).value;
    if Stuck(l') && !MidWrite(l') {
      StuckIsDrained(l');
    }
  }

  // ---- A worker with no write in progress can resolve everything by itself ----

  lemma {:induction false} DrainRun(l: Lane) returns (run: seq<Step>)
    requires Inv(l) && |l.workers| == 1 && !MidWrite(l)
    ensures WorkerOnly(run) && Exec(l, run).Some? && Drained(Exec(l, run).value)
    decreases StepsLeft(l)
  {
    hide Inv, Enabled, Apply, StepsLeft, MidWrite, Drained;
    if NoneInHand(l) && l.buffer == [] {
      run := [];
      EmptyIsDrained(l);
    } else {
      AheadEnabled(l);
      var step := Ahead(l.workers[0]);
      WorkerStepUses(l, step);
      StepKeeps(l, step);
      var rest := DrainRun(Apply(l, step));
      run := [step] + rest;
      ExecCons(l, step, rest);
    }
  }

  lemma {:induction false} ExecCons(l: Lane, step: Step, rest: seq<Step>)
    requires Enabled(l, step)
    ensures Exec(l, [step] + rest) == Exec(Apply(l, step), rest)
  {
    hide Enabled, Apply;
    if rest == [] {
      assert ([step] + rest)[..0] == [] && ([step] + rest)[0] == step;
      assert Exec(l, []) == Some(l);
    } else {
      assert ([step] + rest)[..|rest|] == [step] + rest[..|rest| - 1];
      ExecCons(l, step, rest[..|rest| - 1]);
    }
  }

  /**
   From every reachable state in which no write is in progress a run of worker steps alone gives the item in hand and
   every queued item its result.
   */
  lemma WorkerDrains(l: Lane)
    requires Reachable(l) && |l.workers| == 1 && !MidWrite(l)
    ensures exists run ::
              && WorkerOnly(run) && |run| <= StepsLeft(l) && Exec(l, run).Some?
              && Drained(Exec(l, run).value) && Exec(l, run).value.enqueued == l.enqueued
  {
    ReachableInvariant(l);
    var run := DrainRun(l);
    hide Inv, Reachable, WireOk, AnswersReal, AttrOk, Stuck, Drained, MidWrite, Enabled, Apply;
    WorkerRunsEnd(l, run);
  }
}
