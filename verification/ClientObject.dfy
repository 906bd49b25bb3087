/**
 The Client object: its fields and the critical sections on them, each proved to be the
 step of the state machines that the whole-run theorems are about.
 */
module ClientObject {
  import opened Wrappers
  import opened AckLane
  import opened ClientCore
  import Backoff
  import AckInvariant
  import L = Lifecycle
  import LI = LifecycleInvariants

  /** A buffered Go channel; Send and Receive are the ready cases of its operations. */
  class Channel<T> {
    const capacity: nat
    var buffer: seq<T>

    constructor (capacity: nat)
      ensures this.capacity == capacity && buffer == []
    {
      this.capacity := capacity;
      buffer := [];
    }

    method Send(x: T)
      requires |buffer| < capacity
      modifies this
      ensures buffer == old(buffer) + [x]
    {
      buffer := buffer + [x];
    }

    method Receive() returns (x: T)
      requires buffer != []
      modifies this
      ensures old(buffer) == [x] + buffer
    {
      x := buffer[0];
      buffer := buffer[1..];
    }
  }

  datatype Config = Config(heartbeatInterval: int, reconnectInterval: int, replyAckTimeout: int, maxMissedPong: int)

  function WithDefaults(cfg: Config): Config {
    Config(
      if cfg.heartbeatInterval <= 0 then 30 * Backoff.SECOND else cfg.heartbeatInterval,
      if cfg.reconnectInterval <= 0 then 3 * Backoff.SECOND else cfg.reconnectInterval,
      if cfg.replyAckTimeout <= 0 then 5 * Backoff.SECOND else cfg.replyAckTimeout,
      if cfg.maxMissedPong <= 0 then 3 else cfg.maxMissedPong)
  }

  /** The item an ack channel was made for. */
  datatype Owner = Owner(reqId: string, item: nat)

  /** What is in the ack channel of an item. */
  function Unread(ch: Chan<Delivery>): (acks: seq<Ack>) {
    if ch.received > |ch.sent| then [] else
    seq(|ch.sent| - ch.received, k requires 0 <= k < |ch.sent| - ch.received => ch.sent[ch.received + k].ack)
  }

  // ---- What the steps do to the parts of a lane that the object holds ----

  lemma CallEffect(l: Lane)
    requires AckInvariant.Inv(l)
    ensures var l' := Apply(l, Call);
            && l'.hasQueue && l'.buffer == l.buffer && l'.pending == l.pending && l'.items == l.items + [NewItem(|l.log|)]
            && (!l.hasQueue ==> l.buffer == [])
  {
    assert l.buffer != [] ==> l.buffer[0] < |l.items|;
  }

  lemma EnqueueEffect(l: Lane, i: nat)
    requires Enabled(l, Enqueue(i))
    ensures var l' := Apply(l, Enqueue(i));
            && l'.hasQueue == l.hasQueue && l'.buffer == l.buffer + [i] && l'.pending == l.pending
            && SameChannels(l.items, l'.items)
  {
  }

  lemma DequeueEffect(l: Lane)
    requires |l.workers| > 0 && Enabled(l, Dequeue(0))
    ensures var l' := Apply(l, Dequeue(0));
            && l'.hasQueue == l.hasQueue && l.buffer == [l.buffer[0]] + l'.buffer && l'.pending == l.pending
            && SameChannels(l.items, l'.items)
  {
  }

  lemma RegisterEffect(l: Lane)
    requires AckInvariant.Inv(l) && |l.workers| > 0 && Enabled(l, Register(0))
    ensures var i, l' := l.workers[0].item, Apply(l, Register(0));
            && l'.hasQueue == l.hasQueue && l'.buffer == l.buffer && l'.pending == Some(i)
            && l.items[i].registeredAt.None? && Unread(l.items[i].ackCh) == []
            && l'.items == l.items[i := l.items[i].(registeredAt := Some(|l.log|))]
  {
  }

  lemma ClearEffect(l: Lane)
    requires |l.workers| > 0 && Enabled(l, Clear(0))
    ensures var l' := Apply(l, Clear(0)); l' == l.(workers := l'.workers, pending := None)
  {
  }

  lemma DispatchEffect(l: Lane, ack: Ack, claimable: bool)
    ensures var l' := ApplyDispatch(l, ack, claimable);
            && l'.hasQueue == l.hasQueue && l'.buffer == l.buffer && l'.items == l.items
            && l'.pending == (if claimable then None else l.pending)
            && (claimable && l.pending.Some? ==> l'.claims == l.claims + [Claim(l.pending.value, Delivery(|l.log|, ack))])
  {
  }

  lemma PutAckEffect(l: Lane, k: nat)
    requires AckInvariant.Inv(l) && k < |l.claims|
    ensures l.claims[k].item < |l.items| && Enabled(l, PutAck(k))
    ensures var i, l' := l.claims[k].item, Apply(l, PutAck(k));
            && l'.hasQueue == l.hasQueue && l'.buffer == l.buffer && l'.pending == l.pending
            && l.items[i].registeredAt.Some? && Unread(l.items[i].ackCh) == []
            && l'.items == l.items[i := l.items[i].(ackCh := l'.items[i].ackCh)]
            && Unread(l'.items[i].ackCh) == [l.claims[k].delivery.ack]
  {
  }

  lemma TakeAckEffect(l: Lane)
    requires AckInvariant.Inv(l) && |l.workers| > 0 && Enabled(l, TakeAck(0))
    ensures var i, l' := l.workers[0].item, Apply(l, TakeAck(0));
            && l'.hasQueue == l.hasQueue && l'.buffer == l.buffer && l'.pending == l.pending
            && l.items[i].registeredAt.Some? && |Unread(l.items[i].ackCh)| == 1
            && l'.items == l.items[i := l.items[i].(ackCh := l'.items[i].ackCh)]
            && Unread(l'.items[i].ackCh) == []
            && l'.workers[0].Delivering? && l'.workers[0].outcome.Acked?
            && Unread(l.items[i].ackCh)[0] == l'.workers[0].outcome.delivery.ack
  {
    assert AckInvariant.ItemOk(l.items[l.workers[0].item], l.log);
    assert AckInvariant.InHandOk(l.workers[0], l.items[l.workers[0].item], l.log);
  }

  /** The registrations and ack channels of the items are the same. */
  predicate SameChannels(items: seq<Item>, items': seq<Item>) {
    && |items| == |items'|
    && forall i :: 0 <= i < |items| ==>
         items'[i].registeredAt == items[i].registeredAt && items'[i].ackCh == items[i].ackCh
  }

  // ---- What the steps of the life cycle do to the fields ----

  /** Whenever this step of the life cycle is taken with the fields at `before`, it leaves them at `after`. */
  ghost predicate IsStep(before: Core, after: Core, cfg: Config, step: L.Step) {
    forall s: L.State ::
      L.Enabled(s, step) && s.core == before && s.maxMissed == cfg.maxMissedPong ==> L.Apply(s, step).core == after
  }

  lemma CoreSteps(before: Core, cfg: Config, step: L.Step)
    ensures IsStep(before, LI.CoreAfter(before, cfg.maxMissedPong, step), cfg, step)
  {
    hide L.Enabled, L.Apply, LI.CoreAfter;
    forall s: L.State | L.Enabled(s, step) && s.core == before && s.maxMissed == cfg.maxMissedPong
      ensures L.Apply(s, step).core == LI.CoreAfter(before, cfg.maxMissedPong, step)
    {
      LI.CoreMoves(s, step);
    }
  }

  /** Whenever this step of the life cycle is taken with the lane of r at `before`, it leaves it at `after`. */
  ghost predicate IsLaneStep(r: string, before: Lane, after: Lane, step: L.Step) {
    forall s: L.State ::
      L.Enabled(s, step) && L.LaneOf(s.lanes, r) == before ==> L.LaneOf(L.Apply(s, step).lanes, r) == after
  }

  lemma DispatchLaneStep(ack: Ack, l: Lane)
    ensures IsLaneStep(ack.reqId, l, ApplyDispatch(l, ack, !("ping" <= ack.reqId) && ack.reqId != ""),
                       L.DispatchFrame(L.AckFrame(ack)))
  {
    hide ApplyDispatch;
    var step := L.DispatchFrame(L.AckFrame(ack));
    forall s: L.State | L.Enabled(s, step) && L.LaneOf(s.lanes, ack.reqId) == l
      ensures L.LaneOf(L.Apply(s, step).lanes, ack.reqId) ==
                ApplyDispatch(l, ack, !("ping" <= ack.reqId) && ack.reqId != "")
    {
      assert L.Apply(s, step) == L.ApplyFrame(s, L.AckFrame(ack));
    }
  }

  class Client {
    const cfg: Config
    var hasConn: bool
    var pendingAcks: map<string, Channel<Ack>>
    var replyQueues: map<string, Channel<nat>>
    var missedPongCount: int
    var stopReconnect: bool
    var connected: bool
    var connectedThisRun: bool
    /** Every ack channel made so far. */
    ghost var ackChannels: map<Owner, Channel<Ack>>

    constructor (cfg: Config)
      ensures this.cfg.heartbeatInterval == if cfg.heartbeatInterval > 0 then cfg.heartbeatInterval else 30_000_000_000
      ensures this.cfg.reconnectInterval == if cfg.reconnectInterval > 0 then cfg.reconnectInterval else 3_000_000_000
      ensures this.cfg.replyAckTimeout == if cfg.replyAckTimeout > 0 then cfg.replyAckTimeout else 5_000_000_000
      ensures this.cfg.maxMissedPong == if cfg.maxMissedPong > 0 then cfg.maxMissedPong else 3
      ensures !hasConn && missedPongCount == 0 && !stopReconnect && !connected && !connectedThisRun
      ensures pendingAcks == map[] && replyQueues == map[]
      ensures Fields() == FRESH_CORE && Valid()
      ensures forall r :: Represents(r, EMPTY_LANE)
    {
      this.cfg := WithDefaults(cfg);
      hasConn := false;
      pendingAcks := map[];
      replyQueues := map[];
      missedPongCount := 0;
      stopReconnect := false;
      connected := false;
      connectedThisRun := false;
      ackChannels := map[];
    }

    function Fields(): Core
      reads this
    {
      Core(hasConn, missedPongCount, stopReconnect, connected, connectedThisRun)
    }

    // ---- The connection ----

    /** transitionConn: the callback to make, if the state has flipped. */
    method TransitionConn(connected: bool) returns (callback: Option<ConnState>)
      modifies this`connected, this`connectedThisRun
      ensures this.connected == connected && connectedThisRun == (old(connectedThisRun) || connected)
      ensures callback == if old(this.connected) == connected then None
                          else Some(if connected then Connected else Disconnected)
      ensures IsStep(old(Fields()), Fields(), cfg, if connected then L.MarkConnected else L.MarkDisconnected)
    {
      hide IsStep;
      CoreSteps(Fields(), cfg, if connected then L.MarkConnected else L.MarkDisconnected);
      var changed := this.connected != connected;
      this.connected := connected;
      if connected {
        connectedThisRun := true;
      }
      callback := if !changed then None else Some(if connected then Connected else Disconnected);
    }

    /** Run, once dialled. */
    method SetConn()
      modifies this`hasConn, this`missedPongCount
      ensures hasConn && missedPongCount == 0
      ensures IsStep(old(Fields()), Fields(), cfg, L.SetUp)
      ensures cfg.maxMissedPong > 0 ==> missedPongCount < cfg.maxMissedPong
    {
      hide IsStep;
      CoreSteps(Fields(), cfg, L.SetUp);
      hasConn := true;
      missedPongCount := 0;
    }

    /** Run, on its way out. */
    method ClearConn()
      modifies this`hasConn
      ensures !hasConn
      ensures IsStep(old(Fields()), Fields(), cfg, L.TearDown)
    {
      hide IsStep;
      CoreSteps(Fields(), cfg, L.TearDown);
      hasConn := false;
    }

    /** RunForever, before each Run. */
    method ClearConnectedThisRun()
      modifies this`connectedThisRun
      ensures !connectedThisRun
      ensures IsStep(old(Fields()), Fields(), cfg, L.ClearFlag)
    {
      hide IsStep;
      CoreSteps(Fields(), cfg, L.ClearFlag);
      connectedThisRun := false;
    }

    /** One tick of heartbeatLoop: either the connection is to be closed, or one more heartbeat goes out. */
    method HeartbeatTick() returns (lost: bool)
      modifies this`missedPongCount
      ensures lost <==> old(missedPongCount) >= cfg.maxMissedPong
      ensures missedPongCount == if lost then old(missedPongCount) else old(missedPongCount) + 1
      ensures forall stale :: IsStep(old(Fields()), Fields(), cfg, L.HeartbeatTick(stale))
    {
      hide IsStep;
      CoreSteps(Fields(), cfg, L.HeartbeatTick(true));
      CoreSteps(Fields(), cfg, L.HeartbeatTick(false));
      if missedPongCount >= cfg.maxMissedPong {
        return true;
      }
      missedPongCount := missedPongCount + 1;
      lost := false;
    }

    method HandleHeartbeatAck(ack: Ack) returns (handled: bool)
      modifies this`missedPongCount
      ensures handled <==> "ping" <= ack.reqId
      ensures missedPongCount == if handled && ack.errCode == 0 then 0 else old(missedPongCount)
      ensures IsStep(old(Fields()), Fields(), cfg, L.DispatchFrame(L.AckFrame(ack)))
    {
      hide IsStep;
      CoreSteps(Fields(), cfg, L.DispatchFrame(L.AckFrame(ack)));
      if !(HEARTBEAT_PREFIX <= ack.reqId) {
        return false;
      }
      if ack.errCode == 0 {
        missedPongCount := 0;
      }
      handled := true;
    }

    method HandleReconnectControlEvent(eventType: Option<string>)
      modifies this`stopReconnect
      ensures stopReconnect == (old(stopReconnect) || eventType == Some("disconnected_event"))
      ensures IsStep(old(Fields()), Fields(), cfg, L.DispatchFrame(L.EventFrame(eventType)))
    {
      hide IsStep;
      CoreSteps(Fields(), cfg, L.DispatchFrame(L.EventFrame(eventType)));
      if eventType.None? || eventType.value != DISCONNECTED_EVENT {
        return;
      }
      stopReconnect := true;
    }

    method ReconnectDelay(attempt: int) returns (delay: int)
      ensures delay == Backoff.Delay(cfg.reconnectInterval, attempt)
    {
      delay := Backoff.ReconnectDelay(cfg.reconnectInterval, attempt);
    }

    // ---- Acks ----

    /** No two queues and no two ack channels are the same object. */
    ghost predicate Valid()
      reads `replyQueues, `ackChannels
    {
      && (forall r, t :: r in replyQueues && t in replyQueues && r != t ==> replyQueues[r] != replyQueues[t])
      && (forall o, p :: o in ackChannels && p in ackChannels && o != p ==> ackChannels[o] != ackChannels[p])
    }

    ghost predicate QueueMatches(r: string, l: Lane)
      reads `replyQueues, replyQueues.Values
    {
      && (r in replyQueues <==> l.hasQueue)
      && (r in replyQueues ==> replyQueues[r].capacity == QUEUE_CAPACITY && replyQueues[r].buffer == l.buffer)
    }

    ghost predicate PendingMatches(r: string, l: Lane)
      reads `pendingAcks, `ackChannels
    {
      && (r in pendingAcks <==> l.pending.Some?)
      && (r in pendingAcks ==>
            var o := Owner(r, l.pending.value); o in ackChannels && pendingAcks[r] == ackChannels[o])
    }

    ghost predicate ChannelMatches(o: Owner, it: Item)
      reads `ackChannels, ackChannels.Values
    {
      it.registeredAt.Some? ==>
        o in ackChannels && ackChannels[o].capacity == 1 && ackChannels[o].buffer == Unread(it.ackCh)
    }

    ghost predicate ChannelsMatch(r: string, items: seq<Item>)
      reads `ackChannels, ackChannels.Values
    {
      forall i :: 0 <= i < |items| ==> ChannelMatches(Owner(r, i), items[i])
    }

    /** What the object holds for r is what the lane l holds. */
    ghost predicate Represents(r: string, l: Lane)
      reads `replyQueues, `pendingAcks, `ackChannels, replyQueues.Values, ackChannels.Values
    {
      && QueueMatches(r, l)
      && PendingMatches(r, l)
      && ChannelsMatch(r, l.items)
    }

    /** Nothing has happened to the entries and channels of req_ids other than r. */
    twostate predicate Apart(r: string)
      reads this, replyQueues.Values, ackChannels.Values
    {
      && (forall o: string :: o != r ==> (o in replyQueues <==> o in old(replyQueues)))
      && (forall o: string :: o != r && o in old(replyQueues) ==>
            && o in replyQueues && replyQueues[o] == old(replyQueues[o])
            && replyQueues[o].buffer == old(replyQueues[o].buffer))
      && (forall o: string :: o != r ==> (o in pendingAcks <==> o in old(pendingAcks)))
      && (forall o: string :: o != r && o in old(pendingAcks) ==>
            o in pendingAcks && pendingAcks[o] == old(pendingAcks[o]))
      && (forall w: Owner :: w.reqId != r && w in old(ackChannels) ==>
            && w in ackChannels && ackChannels[w] == old(ackChannels[w])
            && ackChannels[w].buffer == old(ackChannels[w].buffer))
    }

    /** The lanes are a product: the object goes on representing the lanes of all other req_ids. */
    twostate lemma OthersStay(r: string, o: string, l: Lane)
      requires Apart(r) && o != r && old(Represents(o, l))
      ensures Represents(o, l)
    {
      forall i | 0 <= i < |l.items| ensures ChannelMatches(Owner(o, i), l.items[i]) {
        assert old(ChannelMatches(Owner(o, i), l.items[i]));
      }
    }

    /** replyQueue: the queue of the req_id, made together with its worker when there is none. */
    method ReplyQueue(reqId: string, ghost l: Lane) returns (queue: Channel<nat>, started: bool)
      requires Valid() && Represents(reqId, l) && AckInvariant.Inv(l)
      modifies this`replyQueues
      ensures Valid() && Represents(reqId, Apply(l, Call))
      ensures started <==> reqId !in old(replyQueues)
      ensures started ==> fresh(queue)
      ensures replyQueues == old(replyQueues)[reqId := queue]
      ensures !started ==> replyQueues == old(replyQueues)
      ensures Apart(reqId)
    {
      CallEffect(l);
      hide AckInvariant.Inv, Apply, ChannelMatches, PendingMatches;
      started := reqId !in replyQueues;
      if started {
        queue := new Channel<nat>(QUEUE_CAPACITY);
        replyQueues := replyQueues[reqId := queue];
      } else {
        queue := replyQueues[reqId];
      }
    }

    /** SendAndWait: the call puts its item into the queue, which has room. */
    method Enqueue(reqId: string, queue: Channel<nat>, item: nat, ghost l: Lane)
      requires Valid() && Represents(reqId, l) && Enabled(l, AckLane.Step.Enqueue(item))
      requires reqId in replyQueues && queue == replyQueues[reqId]
      modifies queue
      ensures Represents(reqId, Apply(l, AckLane.Step.Enqueue(item)))
      ensures queue.buffer == old(queue.buffer) + [item]
      ensures Apart(reqId)
    {
      EnqueueEffect(l, item);
      hide Apply, Enabled;
      queue.Send(item);
    }

    /** processReplyQueue: the worker takes the next item. */
    method Dequeue(reqId: string, queue: Channel<nat>, ghost l: Lane) returns (item: nat)
      requires Valid() && Represents(reqId, l) && |l.workers| > 0 && Enabled(l, AckLane.Step.Dequeue(0))
      requires reqId in replyQueues && queue == replyQueues[reqId]
      modifies queue
      ensures Represents(reqId, Apply(l, AckLane.Step.Dequeue(0)))
      ensures old(queue.buffer) == [item] + queue.buffer
      ensures Apart(reqId)
    {
      DequeueEffect(l);
      hide Apply, Enabled;
      item := queue.Receive();
    }

    /** The critical section of the next method. */
    method MakePending(reqId: string, ghost owner: Owner) returns (ackCh: Channel<Ack>)
      requires Valid() && owner.reqId == reqId
      modifies this`pendingAcks, this`ackChannels
      ensures Valid() && fresh(ackCh) && ackCh.capacity == 1 && ackCh.buffer == []
      ensures pendingAcks == old(pendingAcks)[reqId := ackCh]
      ensures ackChannels == old(ackChannels)[owner := ackCh] && Apart(reqId)
      ensures forall o: Owner, it: Item :: o != owner && old(ChannelMatches(o, it)) ==> ChannelMatches(o, it)
      ensures forall it: Item :: Unread(it.ackCh) == [] ==> ChannelMatches(owner, it)
    {
      ackCh := new Channel<Ack>(1);
      pendingAcks := pendingAcks[reqId := ackCh];
      ackChannels := ackChannels[owner := ackCh];
    }

    /** processReplyQueue: a fresh ack channel for the item in hand becomes the pending one. */
    method Register(reqId: string, ghost l: Lane) returns (ackCh: Channel<Ack>)
      requires Valid() && Represents(reqId, l) && AckInvariant.Inv(l)
      requires |l.workers| > 0 && Enabled(l, AckLane.Step.Register(0))
      modifies this`pendingAcks, this`ackChannels
      ensures Valid() && Represents(reqId, Apply(l, AckLane.Step.Register(0)))
      ensures fresh(ackCh) && pendingAcks == old(pendingAcks)[reqId := ackCh]
      ensures ackChannels == old(ackChannels)[Owner(reqId, l.workers[0].item) := ackCh]
      ensures Apart(reqId)
    {
      RegisterEffect(l);
      hide AckInvariant.Inv, Apply, Enabled, QueueMatches, ChannelMatches, Unread, Valid, Apart;
      ghost var i, l' := l.workers[0].item, Apply(l, AckLane.Step.Register(0));
      assert ChannelsMatch(reqId, l.items);
      ackCh := MakePending(reqId, Owner(reqId, i));
      assert PendingMatches(reqId, l');
      hide PendingMatches;
      forall j | 0 <= j < |l'.items| ensures ChannelMatches(Owner(reqId, j), l'.items[j]) {
        assert j != i ==> old(ChannelMatches(Owner(reqId, j), l.items[j]));
      }
    }

    method ClearPendingAck(reqId: string, ghost l: Lane)
      requires Represents(reqId, l) && |l.workers| > 0 && Enabled(l, Clear(0))
      modifies this`pendingAcks
      ensures Represents(reqId, Apply(l, Clear(0)))
      ensures pendingAcks == old(pendingAcks) - {reqId}
      ensures Apart(reqId)
    {
      ClearEffect(l);
      hide Apply, Enabled;
      pendingAcks := pendingAcks - {reqId};
    }

    /** dispatchFrame for an ack, up to the channel send: heartbeat acks first, then the pending acks. */
    method DispatchAck(ack: Ack, ghost l: Lane) returns (ackCh: Option<Channel<Ack>>)
      requires Represents(ack.reqId, l)
      modifies this`missedPongCount, this`pendingAcks
      ensures Represents(ack.reqId, ApplyDispatch(l, ack, !("ping" <= ack.reqId) && ack.reqId != ""))
      ensures IsLaneStep(ack.reqId, l, ApplyDispatch(l, ack, !("ping" <= ack.reqId) && ack.reqId != ""),
                         L.DispatchFrame(L.AckFrame(ack)))
      ensures missedPongCount == if "ping" <= ack.reqId && ack.errCode == 0 then 0 else old(missedPongCount)
      ensures ackCh.Some? <==> !("ping" <= ack.reqId) && ack.reqId != "" && ack.reqId in old(pendingAcks)
      ensures ackCh.Some? ==> ackCh.value == old(pendingAcks)[ack.reqId]
      ensures pendingAcks == if ackCh.Some? then old(pendingAcks) - {ack.reqId} else old(pendingAcks)
      ensures Apart(ack.reqId)
    {
      DispatchEffect(l, ack, !("ping" <= ack.reqId) && ack.reqId != "");
      DispatchLaneStep(ack, l);
      hide ApplyDispatch, IsStep, IsLaneStep;
      ackCh := None;
      var heartbeat := HandleHeartbeatAck(ack);
      if !heartbeat && ack.reqId != "" && ack.reqId in pendingAcks {
        ackCh := Some(pendingAcks[ack.reqId]);
        pendingAcks := pendingAcks - {ack.reqId};
      }
    }

    /** The channel operations of the next two methods: they touch no other channel. */
    method SendAck(ackCh: Channel<Ack>, ack: Ack, ghost owner: Owner)
      requires Valid() && owner in ackChannels && ackCh == ackChannels[owner] && |ackCh.buffer| < ackCh.capacity
      modifies ackCh
      ensures ackCh.buffer == old(ackCh.buffer) + [ack] && Apart(owner.reqId)
      ensures forall o: Owner, it: Item :: o != owner && old(ChannelMatches(o, it)) ==> ChannelMatches(o, it)
      ensures forall it: Item :: ackCh.capacity == 1 && Unread(it.ackCh) == ackCh.buffer ==> ChannelMatches(owner, it)
    {
      ackCh.Send(ack);
    }

    method ReceiveAck(ackCh: Channel<Ack>, ghost owner: Owner) returns (ack: Ack)
      requires Valid() && owner in ackChannels && ackCh == ackChannels[owner] && ackCh.buffer != []
      modifies ackCh
      ensures old(ackCh.buffer) == [ack] + ackCh.buffer && Apart(owner.reqId)
      ensures forall o: Owner, it: Item :: o != owner && old(ChannelMatches(o, it)) ==> ChannelMatches(o, it)
      ensures forall it: Item :: ackCh.capacity == 1 && Unread(it.ackCh) == ackCh.buffer ==> ChannelMatches(owner, it)
    {
      ack := ackCh.Receive();
    }

    /** resolvePendingAck: the claimed channel always has room, so the read loop does not block. */
    method PutAck(reqId: string, ackCh: Channel<Ack>, ack: Ack, ghost l: Lane, ghost k: nat)
      requires Valid() && Represents(reqId, l) && AckInvariant.Inv(l)
      requires k < |l.claims| && ack == l.claims[k].delivery.ack
      requires Owner(reqId, l.claims[k].item) in ackChannels && ackCh == ackChannels[Owner(reqId, l.claims[k].item)]
      modifies ackCh
      ensures Enabled(l, AckLane.Step.PutAck(k)) && Represents(reqId, Apply(l, AckLane.Step.PutAck(k)))
      ensures ackCh.buffer == [ack]
      ensures Apart(reqId)
    {
      PutAckEffect(l, k);
      hide AckInvariant.Inv, Apply, Enabled, Unread, Apart;
      assert ChannelMatches(Owner(reqId, l.claims[k].item), l.items[l.claims[k].item]);
      hide ChannelMatches;
      SendAck(ackCh, ack, Owner(reqId, l.claims[k].item));
    }

    /** processReplyQueue: the worker receives the ack of its item; what it got is what it will deliver. */
    method TakeAck(reqId: string, ackCh: Channel<Ack>, ghost l: Lane) returns (ack: Ack)
      requires Valid() && Represents(reqId, l) && AckInvariant.Inv(l)
      requires |l.workers| > 0 && Enabled(l, AckLane.Step.TakeAck(0))
      requires Owner(reqId, l.workers[0].item) in ackChannels && ackCh == ackChannels[Owner(reqId, l.workers[0].item)]
      modifies ackCh
      ensures var l' := Apply(l, AckLane.Step.TakeAck(0));
              && Represents(reqId, l') && l'.workers[0].Delivering? && l'.workers[0].outcome.Acked?
              && ack == l'.workers[0].outcome.delivery.ack
      ensures Apart(reqId)
    {
      TakeAckEffect(l);
      hide AckInvariant.Inv, Apply, Enabled, Unread, Apart;
      assert ChannelMatches(Owner(reqId, l.workers[0].item), l.items[l.workers[0].item]);
      hide ChannelMatches;
      ack := ReceiveAck(ackCh, Owner(reqId, l.workers[0].item));
    }
  }
}
