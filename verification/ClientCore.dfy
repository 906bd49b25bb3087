/** The fields of Client that are guarded by mu and have to do with the connection, and their critical sections. */
module ClientCore {
  import opened Wrappers

  datatype ConnState = Disconnected | Connected

  datatype Core = Core(
    hasConn: bool,
    missedPongCount: int,
    stopReconnect: bool,
    connected: bool,
    connectedThisRun: bool)

  const FRESH_CORE := Core(false, 0, false, false, false)

  const HEARTBEAT_PREFIX := "ping"

  const DISCONNECTED_EVENT := "disconnected_event"

  predicate IsHeartbeat(reqId: string) {
    HEARTBEAT_PREFIX <= reqId
  }

  /** The server says that another connection has taken over; None is an event without a body. */
  predicate IsTakeover(eventType: Option<string>) {
    eventType == Some(DISCONNECTED_EVENT)
  }

  /** RunForever, before each Run. */
  function NewRun(c: Core): Core {
    c.(connectedThisRun := false)
  }

  /** Run, once dialled: every connection starts with no pong missed. */
  function NewConnection(c: Core): Core {
    c.(hasConn := true, missedPongCount := 0)
  }

  /** Run, when it is over. */
  function NoConnection(c: Core): Core {
    c.(hasConn := false)
  }

  /** handleReconnectControlEvent */
  function ControlEvent(c: Core, eventType: Option<string>): Core {
    if IsTakeover(eventType) then c.(stopReconnect := true) else c
  }

  /** transitionConn, under the lock. */
  function Transition(c: Core, connected: bool): Core {
    c.(connected := connected, connectedThisRun := c.connectedThisRun || connected)
  }

  /** heartbeatLoop, one tick: whether it closes the connection, and the fields after it. */
  predicate TickCloses(c: Core, maxMissed: int) {
    c.missedPongCount >= maxMissed
  }

  function Tick(c: Core, maxMissed: int): Core {
    if TickCloses(c, maxMissed) then c else c.(missedPongCount := c.missedPongCount + 1)
  }

  /** handleHeartbeatAck for an ack that is one. */
  function HeartbeatAck(c: Core, errCode: int): Core {
    if errCode == 0 then c.(missedPongCount := 0) else c
  }
}
