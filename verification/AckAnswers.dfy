/**
 Which frame an ack answers. From any point on at which nothing is under way and every frame on the wire has been
 answered, acks go to the items whose frames they answer, as long as the server is honest, no item gives up
 waiting for its ack, and no frame is sent past the queue; a send that fails does no harm.
 */
module AckAnswers {
  import opened Wrappers
  import opened AckLane
  import opened AckInvariant
  import opened AckOrder

  /** The outcome leaves no unanswered frame behind. */
  predicate Harmless(o: Outcome) {
    o.Acked? || o.why.SendFailed?
  }

  predicate AllHarmless(resolved: seq<Resolution>, n: nat, k: nat)
    requires k <= |resolved|
  {
    forall j :: n <= j < k ==> Harmless(resolved[j].outcome)
  }

  predicate GivingUp(pc: Worker) {
    (pc.Clearing? && !pc.why.SendFailed?) || (pc.Delivering? && !Harmless(pc.outcome))
  }

  /** Every item from number n on has ended harmlessly, and the one in hand has not given up either. */
  predicate Clean(resolved: seq<Resolution>, workers: seq<Worker>, n: nat) {
    AllHarmless(resolved, n, |resolved|) && (|workers| > 0 ==> !GivingUp(workers[0]))
  }

  /** A frame on the wire is answered, unless it is that of the pending item. */
  predicate Answered(wire: seq<int>, pending: Option<nat>, answered: set<int>) {
    forall k :: 0 <= k < |wire| ==> wire[k] in answered || (pending.Some? && pending.value == wire[k])
  }

  predicate NoDirectWrite(direct: seq<Write>) {
    forall k :: 0 <= k < |direct| ==> !direct[k].Pending?
  }

  predicate AcksOwn(pc: Worker, it: Item, claims: seq<Claim>)
    requires !pc.Idle?
  {
    && (it.ackCh.sent != [] ==> it.ackCh.sent[0].ack.answers == pc.item)
    && (forall k :: 0 <= k < |claims| && claims[k].item == pc.item ==> claims[k].delivery.ack.answers == pc.item)
    && (pc.Delivering? && pc.outcome.Acked? ==> pc.outcome.delivery.ack.answers == pc.item)
  }

  /** The item in hand: any ack on its way to it is its own, and if its send has failed there is no frame of it. */
  predicate HandOk(pc: Worker, it: Item, claims: seq<Claim>, pending: Option<nat>, answered: set<int>) {
    !pc.Idle? ==>
      && AcksOwn(pc, it, claims)
      && (pc.Registered? || pc.Sending? || pc.Waiting? ==> pc.item in answered || pending == Some(pc.item))
      && (pc.Clearing? && pc.why.SendFailed? ==> it.write != Done(true) && !it.write.Pending?)
  }

  predicate CleanOk(l: Lane) {
    && Answered(l.wire, l.pending, l.answered)
    && OneWriter(l.items, l.workers, {})
    && NoDirectWrite(l.direct)
    && (InHand(l.workers) != [] ==>
          l.workers[0].item < |l.items|
          && HandOk(l.workers[0], l.items[l.workers[0].item], l.claims, l.pending, l.answered))
  }

  /** An ack given to item k answers item k, if all items from n up to it ended harmlessly. */
  predicate OwnAck(resolved: seq<Resolution>, n: nat, k: nat)
    requires k < |resolved|
  {
    AllHarmless(resolved, n, k) && resolved[k].outcome.Acked? ==>
      resolved[k].outcome.delivery.ack.answers == resolved[k].item
  }

  predicate Attributed(resolved: seq<Resolution>, n: nat) {
    forall k :: n <= k < |resolved| ==> OwnAck(resolved, n, k)
  }

  /** An honest server answers only frames that it has received. */
  predicate AnswersReal(l: Lane) {
    l.honest ==> forall a :: a in l.answered ==> exists k :: 0 <= k < |l.wire| && l.wire[k] == a
  }

  /** What holds from an orderly point on at which n items have been resolved and d frames been sent directly. */
  predicate AttrOk(l: Lane, n: nat, d: nat) {
    && n <= |l.resolved| && d <= |l.direct|
    && (l.honest && |l.direct| == d ==>
          Attributed(l.resolved, n) && (Clean(l.resolved, l.workers, n) ==> CleanOk(l)))
  }

  /** An orderly point: no item is in hand, no frame is being written, and all on the wire are answered. */
  predicate NoneInHand(l: Lane) {
    InHand(l.workers) == []
  }

  predicate NoItemWriting(l: Lane) {
    forall i :: 0 <= i < |l.items| ==> !l.items[i].write.Pending?
  }

  predicate NoneWriting(l: Lane) {
    NoItemWriting(l) && NoDirectWrite(l.direct)
  }

  predicate AllAnswered(l: Lane) {
    forall k :: 0 <= k < |l.wire| ==> l.wire[k] in l.answered
  }

  lemma OrderlyAttr(l: Lane)
    requires Inv(l) && NoneInHand(l) && AllAnswered(l) && NoneWriting(l)
    ensures AttrOk(l, |l.resolved|, |l.direct|)
  {
    assert l.pending.None?;
    assert CleanOk(l);
    hide Inv, CleanOk;
  }

  // ---- One lemma a step, as long as nobody gives up ----

  /** An item that no worker holds, or one whose write and acks do not change. */
  lemma CallerClean(l: Lane, step: Step)
    requires CleanOk(l) && Enabled(l, step)
    requires step.Cancel? || step.GiveUpEnqueue? || step.TakeResult? || step.GiveUpWait? || step.Enqueue?
    ensures CleanOk(Apply(l, step))
  {
    hide Answered;
  }

  lemma CallClean(l: Lane)
    requires CleanOk(l) && |l.workers| <= 1 && (l.hasQueue <==> |l.workers| == 1)
    ensures CleanOk(Apply(l, Call))
  {
    hide Answered;
  }

  lemma WriteFrameClean(l: Lane, i: nat, ok: bool)
    requires CleanOk(l) && Enabled(l, WriteFrame(i, ok))
    ensures CleanOk(Apply(l, WriteFrame(i, ok)))
  {
    assert l.workers == [Sending(i)];
  }

  lemma DispatchClean(l: Lane, ack: Ack, claimable: bool)
    requires CleanOk(l) && l.honest && HonestAck(l, ack) && |l.workers| <= 1
    requires PendingOk(l.items, l.workers, l.claims, l.pending)
    ensures CleanOk(ApplyDispatch(l, ack, claimable))
  {
    assert l.pending.Some? && l.pending.value == ack.answers;
    hide HonestAck, OneWriter;
  }

  lemma PutAckClean(l: Lane, k: nat)
    requires CleanOk(l) && Enabled(l, PutAck(k)) && l.items[l.claims[k].item].ackCh.sent == []
    ensures CleanOk(Apply(l, PutAck(k)))
  {
    hide Answered;
  }

  lemma DequeueClean(l: Lane)
    requires Inv(l) && CleanOk(l) && |l.workers| > 0 && Enabled(l, Dequeue(0))
    ensures CleanOk(Apply(l, Dequeue(0)))
  {
    var i := l.buffer[0];
    assert ItemOk(l.items[i], l.log);
    forall k | 0 <= k < |l.claims| ensures l.claims[k].item != i {
      assert ClaimOk(l.items, l.claims[k], l.log);
    }
    hide Inv, Answered;
  }

  lemma RegisterClean(l: Lane)
    requires CleanOk(l) && |l.workers| > 0 && Enabled(l, Register(0)) && l.pending.None?
    ensures CleanOk(Apply(l, Register(0)))
  {
  }

  lemma StartClean(l: Lane, step: Step)
    requires Inv(l) && CleanOk(l) && Enabled(l, step)
    requires step.RefuseSend? || step.StartWrite?
    ensures CleanOk(Apply(l, step))
  {
    assert InHandOk(l.workers[0], l.items[l.workers[0].item], l.log);
    hide Inv, Answered;
  }

  lemma FinishClean(l: Lane, step: Step)
    requires Inv(l) && CleanOk(l) && Enabled(l, step)
    requires step.FinishSend?
    ensures CleanOk(Apply(l, step))
  {
    assert InHandOk(l.workers[0], l.items[l.workers[0].item], l.log);
    hide Inv, Answered;
  }

  lemma TakeAckClean(l: Lane)
    requires Inv(l) && CleanOk(l) && |l.workers| > 0 && Enabled(l, TakeAck(0))
    ensures CleanOk(Apply(l, TakeAck(0)))
  {
    assert ItemOk(l.items[l.workers[0].item], l.log);
    hide Inv, Answered;
  }

  lemma ClearClean(l: Lane)
    requires Inv(l) && CleanOk(l) && WireReal(l.items, l.direct, l.wire)
    requires |l.workers| > 0 && Enabled(l, Clear(0)) && !GivingUp(l.workers[0])
    ensures CleanOk(Apply(l, Clear(0)))
  {
    hide ItemsOk, ClaimsOk, ResolvedOk, BufferOk, Conserved;
  }

  lemma DeliverClean(l: Lane)
    requires Inv(l) && CleanOk(l) && |l.workers| > 0 && Enabled(l, Deliver(0))
    ensures CleanOk(Apply(l, Deliver(0)))
  {
    assert l.pending.None?;
    hide Inv;
  }

  lemma WorkerClean(l: Lane, step: Step)
    requires Inv(l) && WireReal(l.items, l.direct, l.wire) && CleanOk(l) && Enabled(l, step)
    requires WorkerStep(step) && step.w == 0 && |l.workers| == 1
    requires !(step.CancelSend? || step.TimeOut? || step.CancelWait?)
    requires step.Register? ==> l.pending.None?
    requires step.Clear? ==> !GivingUp(l.workers[0])
    ensures CleanOk(Apply(l, step))
  {
    hide Inv, CleanOk, WireReal, Apply, Enabled;
    match step
    case Dequeue(w) => DequeueClean(l);
    case Register(w) => RegisterClean(l);
    case TakeAck(w) => TakeAckClean(l);
    case Clear(w) => ClearClean(l);
    case Deliver(w) => DeliverClean(l);
    case FinishSend(w) => FinishClean(l, step);
    case _ => StartClean(l, step);
  }

  lemma OtherClean(l: Lane, step: Step)
    requires CleanOk(l) && Enabled(l, step) && l.honest && !WorkerStep(step)
    requires !step.SendDirect? && !step.WriteDirect?
    requires |l.workers| <= 1 && (l.hasQueue <==> |l.workers| == 1)
    requires PendingOk(l.items, l.workers, l.claims, l.pending)
    requires step.PutAck? ==> l.items[l.claims[step.k].item].ackCh.sent == []
    requires step.Dispatch? ==> Apply(l, step) == ApplyDispatch(l, step.ack, step.claimable) && HonestAck(l, step.ack)
    ensures CleanOk(Apply(l, step))
  {
    hide CleanOk, PendingOk, HonestAck, Apply, Enabled;
    match step
    case Call => CallClean(l);
    case WriteFrame(i, ok) => WriteFrameClean(l, i, ok);
    case Dispatch(ack, claimable) => DispatchClean(l, ack, claimable);
    case PutAck(k) => PutAckClean(l, k);
    case _ => CallerClean(l, step);
  }

  predicate GivesUp(step: Step) {
    step.CancelSend? || step.TimeOut? || step.CancelWait?
  }

  lemma CleanKeeps(l: Lane, step: Step)
    requires Inv(l) && WireReal(l.items, l.direct, l.wire) && CleanOk(l) && Enabled(l, step) && !step.SendDirect?
    requires l.honest && Apply(l, step).honest
    requires |Apply(l, step).workers| > 0 ==> !GivingUp(Apply(l, step).workers[0])
    ensures CleanOk(Apply(l, step))
  {
    if WorkerStep(step) {
      OnlyWorker(l, step);
      WorkerFacts(l, step);
      hide Inv, CleanOk, WireReal, Apply, Enabled;
      WorkerClean(l, step);
    } else {
      OtherFacts(l, step);
      hide Inv, CleanOk, WireReal, Apply, Enabled;
      OtherClean(l, step);
    }
  }

  // ---- What the lemmas on single steps ask for, from the invariant ----

  lemma WorkerFacts(l: Lane, step: Step)
    requires Inv(l) && Enabled(l, step) && WorkerStep(step) && step.w == 0 && |l.workers| == 1
    ensures |Apply(l, step).workers| == 1
    ensures step.Register? ==> l.pending.None?
    ensures GivesUp(step) ==> GivingUp(Apply(l, step).workers[0])
    ensures GivingUp(l.workers[0]) && !step.Deliver? ==> GivingUp(Apply(l, step).workers[0])
  {
    assert step.Register? ==> l.pending.None?;
    hide Inv, ApplyWorker, WorkerEnabled, GivingUp;
    WorkerMoves(l, step);
  }

  lemma WorkerMoves(l: Lane, step: Step)
    requires WorkerStep(step) && step.w == 0 && |l.workers| == 1 && WorkerEnabled(l, step)
    ensures var l' := ApplyWorker(l, step);
            && |l'.workers| == 1
            && (GivesUp(step) ==> GivingUp(l'.workers[0]))
            && (GivingUp(l.workers[0]) && !step.Deliver? ==> GivingUp(l'.workers[0]))
  {
  }

  lemma OtherFacts(l: Lane, step: Step)
    requires Inv(l) && Enabled(l, step) && !WorkerStep(step)
    ensures |l.workers| <= 1 && (l.hasQueue <==> |l.workers| == 1)
    ensures PendingOk(l.items, l.workers, l.claims, l.pending)
    ensures CleanOk(l) ==> !step.WriteDirect?
    ensures step.PutAck? ==> l.items[l.claims[step.k].item].ackCh.sent == []
    ensures step.Dispatch? ==> Apply(l, step) == ApplyDispatch(l, step.ack, step.claimable)
    ensures step.Dispatch? && Apply(l, step).honest ==> HonestAck(l, step.ack)
  {
    if step.PutAck? {
      assert ClaimOk(l.items, l.claims[step.k], l.log);
    }
    hide HonestAck, ItemsOk, ClaimsOk, ResolvedOk, BufferOk, PendingOk, WorkerOk;
  }

  // ---- Resolutions ----

  lemma OtherHistory(l: Lane, step: Step)
    requires Enabled(l, step) && !WorkerStep(step)
    ensures Apply(l, step).honest ==> l.honest
    ensures Apply(l, step).resolved == l.resolved
    ensures |Apply(l, step).direct| == |l.direct| + if step.SendDirect? then 1 else 0
    ensures |l.workers| > 0 ==> |Apply(l, step).workers| > 0 && Apply(l, step).workers[0] == l.workers[0]
  {
    hide HonestAck;
  }

  lemma WorkerHistory(l: Lane, step: Step)
    requires |l.workers| == 1 && WorkerStep(step) && step.w == 0 && WorkerEnabled(l, step)
    ensures var l' := ApplyWorker(l, step);
            && l'.honest == l.honest && l'.direct == l.direct
            && l'.resolved == if step.Deliver? then l.resolved + [Resolution(l.workers[0].item, l.workers[0].outcome)]
                              else l.resolved
  {
  }

  lemma AttributedSnoc(resolved: seq<Resolution>, n: nat, r: Resolution)
    requires Attributed(resolved, n)
    requires AllHarmless(resolved, n, |resolved|) && r.outcome.Acked? ==> r.outcome.delivery.ack.answers == r.item
    ensures Attributed(resolved + [r], n)
  {
    var s := resolved + [r];
    forall k | n <= k < |s| ensures OwnAck(s, n, k) {
      assert forall j :: n <= j < k ==> s[j] == resolved[j];
      if k < |resolved| {
        assert OwnAck(resolved, n, k);
      }
    }
  }

  /** If all is harmless after a delivery it was so before, and the worker was not delivering a harm. */
  lemma CleanBefore(resolved: seq<Resolution>, n: nat, pc: Worker)
    requires n <= |resolved| && pc.Delivering?
    ensures var s := resolved + [Resolution(pc.item, pc.outcome)];
            AllHarmless(s, n, |s|) <==> Clean(resolved, [pc], n)
  {
    var s := resolved + [Resolution(pc.item, pc.outcome)];
    assert s[|resolved|].outcome == pc.outcome;
    assert forall j :: n <= j < |resolved| ==> s[j] == resolved[j];
  }

  lemma DeliverAttr(l: Lane, n: nat, d: nat)
    requires Inv(l) && AttrOk(l, n, d) && |l.workers| == 1 && Enabled(l, Deliver(0))
    ensures AttrOk(Apply(l, Deliver(0)), n, d)
  {
    var pc := l.workers[0];
    WorkerHistory(l, Deliver(0));
    assert pc.Delivering? && l.workers == [pc] && pc.item < |l.items|;
    CleanBefore(l.resolved, n, pc);
    if l.honest && |l.direct| == d && Clean(l.resolved, l.workers, n) {
      DeliverClean(l);
    }
    hide Inv, Apply, Enabled, Attributed, CleanOk, AllHarmless, GivingUp;
    if l.honest && |l.direct| == d {
      DeliveredOwn(l, n);
    }
  }

  lemma DeliveredOwn(l: Lane, n: nat)
    requires AttrOk(l, n, |l.direct|) && l.honest
    requires |l.workers| == 1 && l.workers[0].Delivering? && l.workers[0].item < |l.items|
    ensures Attributed(l.resolved + [Resolution(l.workers[0].item, l.workers[0].outcome)], n)
  {
    var pc := l.workers[0];
    if AllHarmless(l.resolved, n, |l.resolved|) && pc.outcome.Acked? {
      assert Clean(l.resolved, l.workers, n);
      assert HandOk(pc, l.items[pc.item], l.claims, l.pending, l.answered);
    }
    AttributedSnoc(l.resolved, n, Resolution(pc.item, pc.outcome));
  }

  lemma AttrKeeps(l: Lane, step: Step, n: nat, d: nat)
    requires Inv(l) && WireOk(l) && AttrOk(l, n, d) && Enabled(l, step)
    ensures AttrOk(Apply(l, step), n, d)
  {
    if WorkerStep(step) {
      OnlyWorker(l, step);
    }
    if step.Deliver? {
      DeliverAttr(l, n, d);
    } else {
      SteadyAttr(l, step, n, d);
    }
  }

  /** A step that resolves nothing, and after which nobody is giving up who was not before. */
  lemma SteadyAttr(l: Lane, step: Step, n: nat, d: nat)
    requires Inv(l) && WireOk(l) && AttrOk(l, n, d) && Enabled(l, step) && !step.Deliver?
    ensures AttrOk(Apply(l, step), n, d)
  {
    var l' := Apply(l, step);
    SteadyHistory(l, step);
    assert WireReal(l.items, l.direct, l.wire);
    hide Inv, CleanOk, WireReal, Apply, Enabled, Attributed, AllHarmless, GivingUp;
    if l'.honest && |l'.direct| == d && Clean(l'.resolved, l'.workers, n) {
      CleanKeeps(l, step);
    }
  }

  lemma SteadyHistory(l: Lane, step: Step)
    requires Inv(l) && Enabled(l, step) && !step.Deliver?
    ensures var l' := Apply(l, step);
            && (l'.honest ==> l.honest) && l'.resolved == l.resolved
            && |l'.direct| == |l.direct| + (if step.SendDirect? then 1 else 0)
            && (|l.workers| > 0 && GivingUp(l.workers[0]) ==> |l'.workers| > 0 && GivingUp(l'.workers[0]))
  {
    if WorkerStep(step) {
      OnlyWorker(l, step);
      WorkerFacts(l, step);
      hide Inv, ApplyWorker, WorkerEnabled, GivingUp;
      WorkerHistory(l, step);
    } else {
      OtherHistory(l, step);
      hide Inv, Apply, Enabled, GivingUp;
    }
  }

  lemma AnswersKeep(l: Lane, step: Step)
    requires AnswersReal(l) && Enabled(l, step)
    ensures AnswersReal(Apply(l, step))
  {
    var l' := Apply(l, step);
    AnsweredMoves(l, step);
    hide Apply, Enabled;
    if l'.honest {
      forall a | a in l'.answered ensures exists k :: 0 <= k < |l'.wire| && l'.wire[k] == a {
        var k :| 0 <= k < |l.wire| && l.wire[k] == a;
        assert l'.wire[k] == a;
      }
    }
  }

  lemma WorkerAnswers(l: Lane, step: Step)
    requires WorkerStep(step) && step.w < |l.workers| && WorkerEnabled(l, step)
    ensures var l' := ApplyWorker(l, step); l'.wire == l.wire && l'.honest == l.honest && l'.answered == l.answered
  {
  }

  lemma AnsweredMoves(l: Lane, step: Step)
    requires Enabled(l, step)
    ensures var l' := Apply(l, step);
            && l.wire <= l'.wire
            && (l'.honest ==> l.honest)
            && (if step.Dispatch? then
                  l'.answered == l.answered + {step.ack.answers} && (l'.honest ==> HonestAck(l, step.ack))
                else l'.answered == l.answered)
  {
    hide HonestAck, WorkerEnabled, ApplyWorker;
    if WorkerStep(step) {
      WorkerAnswers(l, step);
    }
  }

  lemma EmptyAnswers()
    ensures AnswersReal(EMPTY_LANE) && AttrOk(EMPTY_LANE, 0, 0)
  {
  }
}
