/**
 The life of one client: calls of Run and RunForever, one at a time, with their read loops, heartbeat
 loops and subscriptions, the ack lanes of all req_ids, and goroutines left over from earlier runs.
 A step is one critical section, channel operation or return; what the network, the clock and
 the caller do is a step as well.
 */
module Lifecycle {
  import opened Wrappers
  import opened AckLane
  import opened ClientCore
  import opened Backoff

  datatype Frame = MessageFrame | EventFrame(eventType: Option<string>) | AckFrame(ack: Ack)

  datatype Result = ContextCancelled | RunEnded | ServerDisconnected

  datatype Pc =
    | Stopped
    | Top
    | ClearingFlag
    | Dialing
    | SettingUp
    | Subscribing
    | AwaitingSubscribe
    | MarkingConnected
    | Notifying(connected: bool)
    | Steady
    | TearingDown
    | CheckingContext
    | MarkingDisconnected
    | Returning
    | CheckingStop
    | ReadingConnected
    | BackingOff

  datatype Beat = Reset | Tick | Close

  /** The subscription of a run: the SendAndWait call `item` of lane `reqId`. */
  datatype Sub = Sub(reqId: string, item: nat)

  /** A Run started by RunForever: was stopReconnect set by then, and when the previous Run returned? */
  datatype Start = Start(stopSet: bool, stopSetAtReturn: bool)

  /** Where the calling goroutine of Run or RunForever stands. */
  datatype Control = Control(pc: Pc, forever: bool, ctxDone: bool, attempt: int, sub: Sub)

  /** The goroutines of the current run, and those left over from earlier ones. */
  datatype Loops = Loops(reading: bool, readEnded: bool, staleReaders: nat, beating: bool, staleBeats: nat)

  /** What has happened to this client: callbacks made, subscriptions confirmed, heartbeats, takeovers. */
  datatype ClientLog = ClientLog(trace: seq<ConnState>, confirmed: seq<Sub>, beats: seq<Beat>, takeovers: nat)

  /** What has happened in the current call of Run or RunForever; subscribed and runConnected are of its current run. */
  datatype CallLog = CallLog(
    result: Option<Result>,
    startedConnected: bool,
    dialled: bool,
    subscribed: bool,
    runConnected: bool,
    runs: seq<bool>,
    waits: seq<int>,
    starts: seq<Start>,
    stopAtReturn: bool)

  datatype State = State(
    interval: int,
    maxMissed: int,
    core: Core,
    lanes: map<string, Lane>,
    at: Control,
    loops: Loops,
    log: ClientLog,
    call: CallLog)

  function NewCall(connected: bool): CallLog {
    CallLog(None, connected, false, false, false, [], [], [], false)
  }

  function Init(interval: int, maxMissed: int): State {
    State(interval, maxMissed, FRESH_CORE, map[],
          Control(Stopped, false, false, 0, Sub("", 0)),
          Loops(false, false, 0, false, 0),
          ClientLog([], [], [], 0),
          NewCall(false))
  }

  datatype Step =
    | Begin(forever: bool)
    | CancelContext
    | CheckContext
    | ClearFlag
    | DialFails
    | DialSucceeds
    | SetUp
    | Subscribe(reqId: string)
    | SubscribeOk
    | SubscribeFails
    | SeeReadEnded
    | MarkConnected
    | Notify
    | TearDown
    | CheckDeferred
    | MarkDisconnected
    | Return
    | CheckStop
    | ReadConnected
    | WaitOver
    | WaitCancelled
    | EndRead
    | EndStaleRead
    | DispatchFrame(frame: Frame)
    | HeartbeatTick(stale: bool)
    | EndBeat(stale: bool)
    | LaneStep(reqId: string, step: AckLane.Step)

  function LaneOf(lanes: map<string, Lane>, reqId: string): Lane {
    if reqId in lanes then lanes[reqId] else EMPTY_LANE
  }

  function PhaseOf(lanes: map<string, Lane>, sub: Sub): Option<Phase> {
    var l := LaneOf(lanes, sub.reqId);
    if sub.item < |l.items| then Some(l.items[sub.item].phase) else None
  }

  function SubPhase(s: State): Option<Phase> {
    PhaseOf(s.lanes, s.at.sub)
  }

  /** The subscription was acknowledged with errcode 0. */
  predicate Succeeded(p: Phase) {
    p.Returned? && p.result.Got? && p.result.outcome.Acked? && p.result.outcome.delivery.ack.errCode == 0
  }

  predicate LoopStep(step: Step) {
    || step.Begin? || step.CheckContext? || step.ClearFlag? || step.Return? || step.CheckStop?
    || step.ReadConnected? || step.WaitOver? || step.WaitCancelled?
  }

  predicate RunStep(step: Step) {
    || step.DialFails? || step.DialSucceeds? || step.SetUp? || step.Subscribe? || step.SubscribeOk?
    || step.SubscribeFails? || step.SeeReadEnded? || step.MarkConnected? || step.Notify?
    || step.TearDown? || step.CheckDeferred? || step.MarkDisconnected?
  }

  predicate Enabled(s: State, step: Step) {
    if LoopStep(step) then LoopEnabled(s, step)
    else if RunStep(step) then RunEnabled(s, step)
    else OutsideEnabled(s, step)
  }

  /** Begin and the steps of RunForever itself. */
  predicate LoopEnabled(s: State, step: Step)
    requires LoopStep(step)
  {
    match step
    case Begin(_) => s.at.pc.Stopped?
    case CheckContext => s.at.pc.Top?
    case ClearFlag => s.at.pc.ClearingFlag?
    case Return => s.at.pc.Returning?
    case CheckStop => s.at.pc.CheckingStop?
    case ReadConnected => s.at.pc.ReadingConnected?
    case WaitOver => s.at.pc.BackingOff?
    case WaitCancelled => s.at.pc.BackingOff? && s.at.ctxDone
  }

  /** The steps of Run on its own goroutine. */
  predicate RunEnabled(s: State, step: Step)
    requires RunStep(step)
  {
    match step
    case DialFails => s.at.pc.Dialing?
    case DialSucceeds => s.at.pc.Dialing?
    case SetUp => s.at.pc.SettingUp?
    case Subscribe(reqId) => s.at.pc.Subscribing? && reqId != ""
    case SubscribeOk => s.at.pc.AwaitingSubscribe? && SubPhase(s).Some? && Succeeded(SubPhase(s).value)
    case SubscribeFails =>
      s.at.pc.AwaitingSubscribe? && SubPhase(s).Some? && SubPhase(s).value.Returned? && !Succeeded(SubPhase(s).value)
    case SeeReadEnded => (s.at.pc.AwaitingSubscribe? || s.at.pc.Steady?) && s.loops.readEnded
    case MarkConnected => s.at.pc.MarkingConnected?
    case Notify => s.at.pc.Notifying?
    case TearDown => s.at.pc.TearingDown?
    case CheckDeferred => s.at.pc.CheckingContext?
    case MarkDisconnected => s.at.pc.MarkingDisconnected?
  }

  /** The caller's context, read loops, heartbeat loops, and everybody's SendAndWait calls. */
  predicate OutsideEnabled(s: State, step: Step)
    requires !LoopStep(step) && !RunStep(step)
  {
    match step
    case CancelContext => !s.at.pc.Stopped?
    case EndRead => s.loops.reading
    case EndStaleRead => s.loops.staleReaders > 0
    case DispatchFrame(_) => s.loops.reading || s.loops.staleReaders > 0
    case HeartbeatTick(stale) => BeatLoopAlive(s.loops, stale)
    case EndBeat(stale) => BeatLoopAlive(s.loops, stale) && (stale || s.at.ctxDone)
    case LaneStep(reqId, ls) => reqId != "" && !ls.Dispatch? && AckLane.Enabled(LaneOf(s.lanes, reqId), ls)
  }

  predicate BeatLoopAlive(loops: Loops, stale: bool) {
    if stale then loops.staleBeats > 0 else loops.beating
  }

  function Goto(s: State, pc: Pc): State {
    s.(at := s.at.(pc := pc))
  }

  function Stop(s: State, r: Result): State {
    Goto(s, Stopped).(call := s.call.(result := Some(r)))
  }

  function ApplyLoop(s: State, step: Step): State
    requires LoopStep(step) && LoopEnabled(s, step)
  {
    match step
    case Begin(forever) =>
      s.(at := Control(if forever then Top else Dialing, forever, false, 0, s.at.sub), call := NewCall(s.core.connected))
    case CheckContext => if s.at.ctxDone then Stop(s, ContextCancelled) else Goto(s, ClearingFlag)
    case ClearFlag =>
      Goto(s, Dialing)
        .(core := NewRun(s.core),
          call := s.call.(subscribed := false, runConnected := false,
                          starts := s.call.starts + [Start(s.core.stopReconnect, s.call.stopAtReturn)]))
    case Return =>
      var s' := s.(call := s.call.(runs := s.call.runs + [s.call.runConnected], stopAtReturn := s.core.stopReconnect));
      if !s.at.forever then Stop(s', RunEnded)
      else if s.at.ctxDone then Stop(s', ContextCancelled)
      else Goto(s', CheckingStop)
    case CheckStop =>
      if s.core.stopReconnect then Stop(s, ServerDisconnected) else Goto(s, ReadingConnected)
    case ReadConnected =>
      var attempt := (if s.core.connectedThisRun then 0 else s.at.attempt) + 1;
      s.(at := s.at.(pc := BackingOff, attempt := attempt),
         call := s.call.(waits := s.call.waits + [Delay(s.interval, attempt)]))
    case WaitOver => Goto(s, Top)
    case WaitCancelled => Stop(s, ContextCancelled)
  }

  /** transitionConn under the lock; the callback is the next step if the state has flipped. */
  function ApplyMark(s: State, connected: bool): State {
    Goto(s, if s.core.connected != connected then Notifying(connected)
            else if connected then Steady else Returning)
      .(core := Transition(s.core, connected))
  }

  /** The deferred functions of Run: the loops of this run are left to end on their own. */
  function LeaveBehind(loops: Loops): Loops {
    Loops(false, loops.readEnded, loops.staleReaders + (if loops.reading then 1 else 0),
          false, loops.staleBeats + (if loops.beating then 1 else 0))
  }

  function ApplyRun(s: State, step: Step): State
    requires RunStep(step) && RunEnabled(s, step)
  {
    match step
    case DialFails => Goto(s, Returning)
    case DialSucceeds => Goto(s, SettingUp).(call := s.call.(dialled := true))
    case SetUp =>
      Goto(s, Subscribing)
        .(core := NewConnection(s.core),
          loops := s.loops.(reading := true, readEnded := false, beating := true),
          log := s.log.(beats := s.log.beats + [Reset]))
    case Subscribe(reqId) =>
      var l := LaneOf(s.lanes, reqId);
      s.(lanes := s.lanes[reqId := AckLane.Apply(l, Call)],
         at := s.at.(pc := AwaitingSubscribe, sub := Sub(reqId, |l.items|)),
         call := s.call.(subscribed := true))
    case SubscribeOk => Goto(s, MarkingConnected)
    case SubscribeFails => Goto(s, TearingDown)
    case SeeReadEnded => Goto(s, TearingDown)
    case MarkConnected =>
      ApplyMark(s, true).(call := s.call.(runConnected := true),
                          log := s.log.(confirmed := s.log.confirmed + [s.at.sub]))
    case Notify =>
      Goto(s, if s.at.pc.connected then Steady else Returning)
        .(log := s.log.(trace := s.log.trace + [if s.at.pc.connected then Connected else Disconnected]))
    case TearDown => Goto(s, CheckingContext).(core := NoConnection(s.core), loops := LeaveBehind(s.loops))
    case CheckDeferred => Goto(s, if s.at.ctxDone then Returning else MarkingDisconnected)
    case MarkDisconnected => ApplyMark(s, false)
  }

  /** dispatchFrame: heartbeat acks are consumed first, other acks may be claimed, a takeover is noted. */
  function ApplyFrame(s: State, frame: Frame): State {
    match frame
    case MessageFrame => s
    case EventFrame(eventType) =>
      s.(core := ControlEvent(s.core, eventType),
         log := s.log.(takeovers := s.log.takeovers + if IsTakeover(eventType) then 1 else 0))
    case AckFrame(ack) =>
      var heartbeat := IsHeartbeat(ack.reqId);
      var lane := AckLane.ApplyDispatch(LaneOf(s.lanes, ack.reqId), ack, !heartbeat && ack.reqId != "");
      var s' := s.(lanes := s.lanes[ack.reqId := lane]);
      if heartbeat && ack.errCode == 0 then
        s'.(core := HeartbeatAck(s.core, ack.errCode), log := s.log.(beats := s.log.beats + [Reset]))
      else s'
  }

  function EndLoop(loops: Loops, stale: bool): Loops
    requires BeatLoopAlive(loops, stale)
  {
    if stale then loops.(staleBeats := loops.staleBeats - 1) else loops.(beating := false)
  }

  function ApplyTick(s: State, stale: bool): State
    requires BeatLoopAlive(s.loops, stale)
  {
    if TickCloses(s.core, s.maxMissed) then
      s.(loops := EndLoop(s.loops, stale), log := s.log.(beats := s.log.beats + [Close]))
    else
      s.(core := ClientCore.Tick(s.core, s.maxMissed), log := s.log.(beats := s.log.beats + [Beat.Tick]))
  }

  function ApplyOutside(s: State, step: Step): State
    requires !LoopStep(step) && !RunStep(step) && OutsideEnabled(s, step)
  {
    match step
    case CancelContext => s.(at := s.at.(ctxDone := true))
    case EndRead => s.(loops := s.loops.(reading := false, readEnded := true))
    case EndStaleRead => s.(loops := s.loops.(staleReaders := s.loops.staleReaders - 1))
    case DispatchFrame(frame) => ApplyFrame(s, frame)
    case HeartbeatTick(stale) => ApplyTick(s, stale)
    case EndBeat(stale) => s.(loops := EndLoop(s.loops, stale))
    case LaneStep(reqId, ls) => s.(lanes := s.lanes[reqId := AckLane.Apply(LaneOf(s.lanes, reqId), ls)])
  }

  function Apply(s: State, step: Step): State
    requires Enabled(s, step)
  {
    if LoopStep(step) then ApplyLoop(s, step)
    else if RunStep(step) then ApplyRun(s, step)
    else ApplyOutside(s, step)
  }

  function Exec(init: State, run: seq<Step>): Option<State> {
    if run == [] then Some(init) else
    match Exec(init, run[..|run| - 1])
    case None => None
    case Some(s) => if Enabled(s, run[|run| - 1]) then Some(Apply(s, run[|run| - 1])) else None
  }

  /** Some run of a fresh client leads to s. NewClient makes interval and limit positive. */
  ghost predicate Reachable(s: State) {
    s.interval > 0 && s.maxMissed > 0 && exists run :: Exec(Init(s.interval, s.maxMissed), run) == Some(s)
  }
}
