/**
 The order of the frames on the wire. A direct send and a send that is abandoned in mid-write may put their
 frames there at any later time; all other frames follow the enqueue order.
 */
module AckOrder {
  import opened AckLane
  import opened AckInvariant

  predicate OnWire(items: seq<Item>, i: nat) {
    i < |items| && items[i].write == Done(true)
  }

  /** The frame f has been written. */
  predicate Sent(items: seq<Item>, direct: seq<Write>, f: int) {
    if f >= 0 then OnWire(items, f) else -1 - f < |direct| && direct[-1 - f] == Done(true)
  }

  /** The members of s whose frame was written and that are not in `ignored`, in the order of s. */
  function Written(items: seq<Item>, ignored: set<nat>, s: seq<nat>): seq<nat> {
    if s == [] then [] else
      var last := s[|s| - 1];
      Written(items, ignored, s[..|s| - 1]) + if OnWire(items, last) && last !in ignored then [last] else []
  }

  /** The items of a sequence of frames that are not in `ignored`; the frames of direct sends are left out. */
  function Without(s: seq<int>, ignored: set<nat>): seq<nat> {
    if s == [] then [] else
      Without(s[..|s| - 1], ignored) + if s[|s| - 1] < 0 || s[|s| - 1] in ignored then [] else [s[|s| - 1]]
  }

  /** Apart from the ignored items, the wire carries the written frames of items in enqueue order. */
  predicate InOrder(items: seq<Item>, wire: seq<int>, enqueued: seq<nat>, ignored: set<nat>) {
    Without(wire, ignored) == Written(items, ignored, enqueued)
  }

  /** A frame still being written is that of the send in progress, or ignored. */
  predicate OneWriter(items: seq<Item>, workers: seq<Worker>, ignored: set<nat>) {
    forall i :: 0 <= i < |items| && items[i].write.Pending? && i !in ignored ==> workers == [Sending(i)]
  }

  predicate WireReal(items: seq<Item>, direct: seq<Write>, wire: seq<int>) {
    forall k :: 0 <= k < |wire| ==> Sent(items, direct, wire[k])
  }

  /** An abandoned send has started and is not the one in progress. */
  predicate AbandonedOk(items: seq<Item>, workers: seq<Worker>, abandoned: set<nat>) {
    forall i :: i in abandoned ==> i < |items| && !items[i].write.NotStarted? && workers != [Sending(i)]
  }

  predicate OrderOk(l: Lane, ignored: set<nat>) {
    && WireReal(l.items, l.direct, l.wire)
    && AbandonedOk(l.items, l.workers, l.abandoned)
    && InOrder(l.items, l.wire, l.enqueued, ignored)
    && OneWriter(l.items, l.workers, ignored)
  }

  predicate WireOk(l: Lane) {
    OrderOk(l, l.abandoned)
  }

  // ---- Written and Without ----

  lemma {:induction false} WrittenSame(items: seq<Item>, ign: set<nat>, items': seq<Item>, ign': set<nat>, s: seq<nat>)
    requires forall i: nat :: OnWire(items, i) && i !in ign <==> OnWire(items', i) && i !in ign'
    ensures Written(items, ign, s) == Written(items', ign', s)
  {
    if s == [] {
    } else {
      WrittenSame(items, ign, items', ign', s[..|s| - 1]);
    }
  }

  lemma {:induction false} WrittenConcat(items: seq<Item>, ignored: set<nat>, a: seq<nat>, b: seq<nat>)
    ensures Written(items, ignored, a + b) == Written(items, ignored, a) + Written(items, ignored, b)
  {
    if b == [] {
      assert a + b == a;
    } else {
      assert (a + b)[..|a + b| - 1] == a + b[..|b| - 1];
      WrittenConcat(items, ignored, a, b[..|b| - 1]);
    }
  }

  lemma WrittenSnoc(items: seq<Item>, ignored: set<nat>, s: seq<nat>, i: nat)
    ensures Written(items, ignored, s + [i]) ==
              Written(items, ignored, s) + if OnWire(items, i) && i !in ignored then [i] else []
  {
    assert (s + [i])[..|s|] == s;
  }

  lemma {:induction false} NoneWritten(items: seq<Item>, ignored: set<nat>, s: seq<nat>)
    requires forall k :: 0 <= k < |s| ==> !OnWire(items, s[k])
    ensures Written(items, ignored, s) == []
  {
    if s == [] {
    } else {
      NoneWritten(items, ignored, s[..|s| - 1]);
    }
  }

  /** An update of an item that s does not mention. */
  lemma {:induction false} WrittenElsewhere(items: seq<Item>, ignored: set<nat>, s: seq<nat>, i: nat, it: Item)
    requires i < |items| && i !in s
    ensures Written(items[i := it], ignored, s) == Written(items, ignored, s)
  {
    if s == [] {
    } else {
      WrittenElsewhere(items, ignored, s[..|s| - 1], i, it);
    }
  }

  lemma WithoutSnoc(s: seq<int>, f: int, ignored: set<nat>)
    ensures Without(s + [f], ignored) == Without(s, ignored) + if f < 0 || f in ignored then [] else [f]
  {
    assert (s + [f])[..|s|] == s;
  }

  lemma {:induction false} WithoutNothing(s: seq<int>)
    requires forall k :: 0 <= k < |s| ==> s[k] >= 0
    ensures Without(s, {}) == s
  {
    if s == [] {
    } else {
      WithoutNothing(s[..|s| - 1]);
    }
  }

  lemma {:induction false} WithoutAbsent(s: seq<int>, ignored: set<nat>, i: nat)
    requires i !in s
    ensures Without(s, ignored + {i}) == Without(s, ignored)
  {
    if s == [] {
    } else {
      WithoutAbsent(s[..|s| - 1], ignored, i);
    }
  }

  /** An item that has not been written can be ignored. */
  lemma Ignore(l: Lane, ignored: set<nat>, i: nat)
    requires OrderOk(l, ignored) && !OnWire(l.items, i)
    ensures OrderOk(l, ignored + {i})
  {
    WithoutAbsent(l.wire, ignored, i);
    WrittenSame(l.items, ignored, l.items, ignored + {i}, l.enqueued);
  }

  // ---- Steps ----

  /** Writes, wire and enqueue order stay; the worker does not leave a send. */
  predicate Quiet(l: Lane, l': Lane) {
    && l'.wire == l.wire && l.direct <= l'.direct
    && l'.enqueued == l.enqueued && l'.abandoned == l.abandoned && |l.items| <= |l'.items|
    && (forall i :: 0 <= i < |l.items| ==> l'.items[i].write == l.items[i].write)
    && (forall i :: |l.items| <= i < |l'.items| ==> l'.items[i].write.NotStarted?)
    && (l'.workers == l.workers
        || ((|l.workers| == 1 ==> !l.workers[0].Sending?) && |l'.workers| == 1 && !l'.workers[0].Sending?))
  }

  predicate WritingStep(step: Step) {
    step.Enqueue? || step.StartWrite? || step.WriteFrame? || step.WriteDirect? || step.FinishSend?
    || step.CancelSend?
  }

  lemma CallIsQuiet(l: Lane)
    requires |l.workers| <= 1 && (l.hasQueue <==> |l.workers| == 1)
    ensures Quiet(l, Apply(l, Call))
  {
  }

  lemma CallerIsQuiet(l: Lane, step: Step)
    requires Enabled(l, step)
    requires step.Cancel? || step.GiveUpEnqueue? || step.TakeResult? || step.GiveUpWait? || step.PutAck?
             || step.SendDirect?
    ensures Quiet(l, Apply(l, step))
  {
  }

  lemma DispatchIsQuiet(l: Lane, ack: Ack, claimable: bool)
    ensures Quiet(l, Apply(l, Dispatch(ack, claimable)))
  {
    hide HonestAck;
  }

  lemma WorkerIsQuiet(l: Lane, step: Step)
    requires |l.workers| <= 1 && WorkerStep(step) && step.w < |l.workers| && WorkerEnabled(l, step) && !WritingStep(step)
    ensures Quiet(l, ApplyWorker(l, step))
  {
  }

  lemma OthersAreQuiet(l: Lane, step: Step)
    requires |l.workers| <= 1 && (l.hasQueue <==> |l.workers| == 1)
    requires Enabled(l, step) && !WritingStep(step) && !WorkerStep(step)
    ensures Quiet(l, Apply(l, step))
  {
    hide Quiet, Apply, Enabled;
    match step
    case Call => CallIsQuiet(l);
    case Dispatch(ack, claimable) => DispatchIsQuiet(l, ack, claimable);
    case _ => CallerIsQuiet(l, step);
  }

  lemma QuietStep(l: Lane, step: Step)
    requires Inv(l) && Enabled(l, step) && !WritingStep(step)
    ensures Quiet(l, Apply(l, step))
  {
    assert |l.workers| <= 1 && (l.hasQueue <==> |l.workers| == 1);
    hide Inv, Quiet, ApplyWorker, WorkerEnabled, ApplyDispatch;
    if WorkerStep(step) {
      WorkerIsQuiet(l, step);
    } else {
      OthersAreQuiet(l, step);
    }
  }

  lemma QuietOrder(l: Lane, l': Lane, ignored: set<nat>)
    requires Quiet(l, l') && OrderOk(l, ignored)
    ensures OrderOk(l', ignored)
  {
    WrittenSame(l.items, ignored, l'.items, ignored, l.enqueued);
    hide Written;
  }

  /** A send ends: its frame has been written or has failed, or else the send is abandoned. */
  lemma SentEffect(l: Lane, step: Step)
    requires |l.workers| <= 1 && Enabled(l, step) && (step.FinishSend? || step.CancelSend?)
    ensures l.workers[0].Sending? && l.workers[0].item < |l.items| && step.w == 0
    ensures var i, l' := l.workers[0].item, Apply(l, step);
            && l'.items == l.items && l'.wire == l.wire && l'.direct == l.direct && l'.enqueued == l.enqueued
            && |l'.workers| == 1 && !l'.workers[0].Sending?
            && l'.abandoned == if l.items[i].write.Pending? then l.abandoned + {i} else l.abandoned
  {
  }

  lemma AfterSend(items: seq<Item>, i: nat, workers: seq<Worker>, was: set<nat>, abandoned: set<nat>,
                  ignored: set<nat>)
    requires AbandonedOk(items, [Sending(i)], was) && OneWriter(items, [Sending(i)], ignored)
    requires i < |items| && |workers| == 1 && !workers[0].Sending?
    requires abandoned == if items[i].write.Pending? then was + {i} else was
    requires abandoned == was || abandoned <= ignored
    ensures AbandonedOk(items, workers, abandoned) && OneWriter(items, workers, ignored)
  {
    assert i !in was;
    assert items[i].write.Pending? ==> i in abandoned;
  }

  lemma SentOrder(l: Lane, step: Step, ignored: set<nat>)
    requires Inv(l) && OrderOk(l, ignored) && Enabled(l, step) && (step.FinishSend? || step.CancelSend?)
    requires Apply(l, step).abandoned == l.abandoned || Apply(l, step).abandoned <= ignored
    ensures OrderOk(Apply(l, step), ignored)
  {
    hide Inv, Apply, Enabled, InOrder, WireReal, AbandonedOk, OneWriter;
    OnlyWorker(l, step);
    SentEffect(l, step);
    assert l.workers == [Sending(l.workers[0].item)];
    AfterSend(l.items, l.workers[0].item, Apply(l, step).workers, l.abandoned, Apply(l, step).abandoned, ignored);
  }

  lemma StartWriteEffect(l: Lane)
    requires Inv(l) && |l.workers| > 0 && Enabled(l, StartWrite(0))
    ensures var i, l' := l.workers[0].item, Apply(l, StartWrite(0));
            && l.workers[0].Registered? && i < |l.items| && l.items[i].write.NotStarted?
            && l'.items == l.items[i := l.items[i].(write := Pending)] && l'.workers == [Sending(i)]
            && l'.direct == l.direct
            && l'.wire == l.wire && l'.enqueued == l.enqueued && l'.abandoned == l.abandoned
  {
    assert InHandOk(l.workers[0], l.items[l.workers[0].item], l.log);
  }

  lemma StartWriteOrder(l: Lane, ignored: set<nat>)
    requires Inv(l) && OrderOk(l, ignored) && |l.workers| > 0 && Enabled(l, StartWrite(0))
    ensures OrderOk(Apply(l, StartWrite(0)), ignored)
  {
    StartWriteEffect(l);
    hide Inv, Apply, Enabled, Written, Without;
    WrittenSame(l.items, ignored, Apply(l, StartWrite(0)).items, ignored, l.enqueued);
  }

  lemma EnqueueEffect(l: Lane, i: nat)
    requires Inv(l) && Enabled(l, Enqueue(i))
    ensures var l' := Apply(l, Enqueue(i));
            && i < |l.items| && l.items[i].write.NotStarted?
            && l'.items == l.items[i := l.items[i].(phase := Awaiting, stage := Queued)] && l'.workers == l.workers
            && l'.direct == l.direct
            && l'.wire == l.wire && l'.enqueued == l.enqueued + [i] && l'.abandoned == l.abandoned
  {
    assert ItemOk(l.items[i], l.log);
  }

  lemma EnqueueOrder(l: Lane, i: nat, ignored: set<nat>)
    requires Inv(l) && OrderOk(l, ignored) && Enabled(l, Enqueue(i))
    ensures OrderOk(Apply(l, Enqueue(i)), ignored)
  {
    EnqueueEffect(l, i);
    var items' := Apply(l, Enqueue(i)).items;
    hide Inv, Apply, Enabled, Written, Without;
    WrittenSame(l.items, ignored, items', ignored, l.enqueued);
    WrittenSnoc(items', ignored, l.enqueued, i);
  }

  /** The enqueued items around the one in hand: those resolved before it, and those not started behind it. */
  lemma AroundHand(l: Lane, i: nat)
    requires Inv(l) && InHand(l.workers) == [i]
    ensures i < |l.items| && l.enqueued == ItemsOf(l.resolved) + [i] + l.buffer
    ensures i !in ItemsOf(l.resolved) && i !in l.buffer
    ensures forall k :: 0 <= k < |l.buffer| ==> !OnWire(l.items, l.buffer[k])
  {
    assert InHandOk(l.workers[0], l.items[i], l.log);
    forall k | 0 <= k < |l.buffer| ensures !OnWire(l.items, l.buffer[k]) && l.buffer[k] != i {
      assert ItemOk(l.items[l.buffer[k]], l.log);
    }
    forall k | 0 <= k < |l.resolved| ensures l.resolved[k].item != i {
      assert ResolutionOk(l.items, l.resolved[k]);
    }
    hide ItemsOk, ClaimsOk, PendingOk, WorkerOk, InHandOk;
  }

  /** Writing the frame of the item in hand puts it on the wire behind everything enqueued before it. */
  lemma WriteInOrder(items: seq<Item>, done: seq<nat>, i: nat, queued: seq<nat>, wire: seq<int>,
                     it: Item, ignored: set<nat>)
    requires i < |items| && i !in ignored && i !in done && i !in queued && items[i].write.Pending?
    requires forall k :: 0 <= k < |queued| ==> !OnWire(items, queued[k])
    requires InOrder(items, wire, done + [i] + queued, ignored)
    ensures InOrder(items[i := it], if it.write == Done(true) then wire + [i] else wire, done + [i] + queued, ignored)
  {
    var items' := items[i := it];
    WrittenAround(items, ignored, done, i, queued);
    WrittenAround(items', ignored, done, i, queued);
    WrittenElsewhere(items, ignored, done, i, it);
    WrittenElsewhere(items, ignored, queued, i, it);
    NoneWritten(items, ignored, queued);
    WithoutSnoc(wire, i, ignored);
    hide Written, Without;
    assert Written(items, ignored, done) + [] + [] == Written(items, ignored, done);
  }

  lemma WrittenAround(items: seq<Item>, ignored: set<nat>, a: seq<nat>, i: nat, b: seq<nat>)
    ensures Written(items, ignored, a + [i] + b) ==
              Written(items, ignored, a) + (if OnWire(items, i) && i !in ignored then [i] else [])
              + Written(items, ignored, b)
  {
    WrittenConcat(items, ignored, a + [i], b);
    WrittenSnoc(items, ignored, a, i);
    hide Written;
  }

  lemma WriteFrameEffect(l: Lane, i: nat, ok: bool)
    requires Enabled(l, WriteFrame(i, ok))
    ensures var l' := Apply(l, WriteFrame(i, ok));
            && i < |l.items| && l.items[i].write.Pending?
            && l'.items == l.items[i := l.items[i].(write := Done(ok))] && l'.workers == l.workers
            && l'.direct == l.direct
            && l'.wire == (if ok then l.wire + [i] else l.wire)
            && l'.enqueued == l.enqueued && l'.abandoned == l.abandoned
  {
  }

  lemma IgnoredWrite(items: seq<Item>, i: nat, ok: bool, wire: seq<int>, enqueued: seq<nat>, ignored: set<nat>)
    requires i < |items| && i in ignored && InOrder(items, wire, enqueued, ignored)
    ensures InOrder(items[i := items[i].(write := Done(ok))], if ok then wire + [i] else wire, enqueued, ignored)
  {
    WrittenSame(items, ignored, items[i := items[i].(write := Done(ok))], ignored, enqueued);
    WithoutSnoc(wire, i, ignored);
    hide Written, Without;
  }

  /** What a write means for the other parts of OrderOk. */
  lemma WriteKeepsRest(l: Lane, i: nat, ok: bool, ignored: set<nat>)
    requires OrderOk(l, ignored) && i < |l.items| && l.items[i].write.Pending?
    ensures var items', wire' := l.items[i := l.items[i].(write := Done(ok))], if ok then l.wire + [i] else l.wire;
            && WireReal(items', l.direct, wire') && AbandonedOk(items', l.workers, l.abandoned)
            && OneWriter(items', l.workers, ignored)
  {
    hide InOrder;
  }

  lemma WriteFrameOrder(l: Lane, i: nat, ok: bool, ignored: set<nat>)
    requires Inv(l) && OrderOk(l, ignored) && Enabled(l, WriteFrame(i, ok))
    ensures OrderOk(Apply(l, WriteFrame(i, ok)), ignored)
  {
    WriteFrameEffect(l, i, ok);
    WriteKeepsRest(l, i, ok, ignored);
    if i !in ignored {
      assert l.workers == [Sending(i)];
      AroundHand(l, i);
    }
    hide Inv, Apply, Enabled, InOrder, WireReal, AbandonedOk, OneWriter;
    if i in ignored {
      IgnoredWrite(l.items, i, ok, l.wire, l.enqueued, ignored);
    } else {
      WriteInOrder(l.items, ItemsOf(l.resolved), i, l.buffer, l.wire, l.items[i].(write := Done(ok)), ignored);
    }
  }

  lemma WriteDirectEffect(l: Lane, k: nat, ok: bool)
    requires Enabled(l, WriteDirect(k, ok))
    ensures k < |l.direct| && l.direct[k].Pending?
    ensures Apply(l, WriteDirect(k, ok)) ==
              l.(direct := l.direct[k := Done(ok)], wire := if ok then l.wire + [DirectFrame(k)] else l.wire)
  {
  }

  lemma DirectIsReal(items: seq<Item>, direct: seq<Write>, wire: seq<int>, k: nat, ok: bool)
    requires WireReal(items, direct, wire) && k < |direct| && direct[k].Pending?
    ensures WireReal(items, direct[k := Done(ok)], if ok then wire + [DirectFrame(k)] else wire)
  {
  }

  lemma WriteDirectOrder(l: Lane, k: nat, ok: bool, ignored: set<nat>)
    requires OrderOk(l, ignored) && Enabled(l, WriteDirect(k, ok))
    ensures OrderOk(Apply(l, WriteDirect(k, ok)), ignored)
  {
    WriteDirectEffect(l, k, ok);
    WithoutSnoc(l.wire, DirectFrame(k), ignored);
    hide Apply, Enabled, Written, Without, WireReal, AbandonedOk, OneWriter;
    DirectIsReal(l.items, l.direct, l.wire, k, ok);
  }

  /** A step that abandons none but ignored items keeps the order. */
  lemma OrderKeeps(l: Lane, step: Step, ignored: set<nat>)
    requires Inv(l) && OrderOk(l, ignored) && Enabled(l, step)
    requires Apply(l, step).abandoned == l.abandoned || Apply(l, step).abandoned <= ignored
    ensures OrderOk(Apply(l, step), ignored)
  {
    hide Inv, OrderOk, Quiet, Apply, Enabled;
    if WorkerStep(step) {
      OnlyWorker(l, step);
    }
    match step
    case StartWrite(w) => StartWriteOrder(l, ignored);
    case Enqueue(i) => EnqueueOrder(l, i, ignored);
    case WriteFrame(i, ok) => WriteFrameOrder(l, i, ok, ignored);
    case WriteDirect(k, ok) => WriteDirectOrder(l, k, ok, ignored);
    case FinishSend(w) => SentOrder(l, step, ignored);
    case CancelSend(w) => SentOrder(l, step, ignored);
    case _ => QuietStep(l, step); QuietOrder(l, Apply(l, step), ignored);
  }

  // ---- All steps ----

  lemma OnlyCancelAbandons(l: Lane, step: Step)
    requires Enabled(l, step) && !step.CancelSend?
    ensures Apply(l, step).abandoned == l.abandoned
  {
    hide HonestAck;
  }

  /** A step abandons nothing, or else the send in progress. */
  lemma AbandonedMoves(l: Lane, step: Step)
    requires Inv(l) && Enabled(l, step) && Apply(l, step).abandoned != l.abandoned
    ensures |l.workers| == 1 && l.workers[0].Sending? && l.workers[0].item < |l.items|
    ensures l.items[l.workers[0].item].write.Pending?
    ensures Apply(l, step).abandoned == l.abandoned + {l.workers[0].item}
  {
    assert |l.workers| <= 1;
    hide Inv, Apply, Enabled;
    if step.CancelSend? {
      SentEffect(l, step);
    } else {
      OnlyCancelAbandons(l, step);
    }
  }

  lemma WireKeeps(l: Lane, step: Step)
    requires Inv(l) && WireOk(l) && Enabled(l, step)
    ensures WireOk(Apply(l, step))
  {
    hide Inv, OrderOk, Apply, Enabled;
    if Apply(l, step).abandoned != l.abandoned {
      AbandonedMoves(l, step);
      Ignore(l, l.abandoned, l.workers[0].item);
    }
    OrderKeeps(l, step, Apply(l, step).abandoned);
  }

  lemma EmptyWire()
    ensures WireOk(EMPTY_LANE)
  {
  }
}
