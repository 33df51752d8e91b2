/** Monitor sessions of a socket (monitor, event and stop_monitor in socket_base.cpp):
    which PAIR sockets are opened and closed, and which events each one carries. */
module MonitorSession {
  import opened Wrappers

  const MONITOR_STOPPED: bv32 := 0x0400

  /** What the event_* functions raise; MONITOR_STOPPED comes from stop_monitor only. */
  type EventKind = k: bv32 | k != 0x0400 witness 1

  predicate Selects(mask: bv32, kind: bv32) {
    mask & kind != 0
  }

  /** A call of monitor (addr_, events_), by what becomes of it. */
  datatype Request =
    | Deregister                                   // addr_ == NULL
    | BadAddress                                   // unparsable or not inproc
    | Inproc(events: bv32, created: bool, lingerSet: bool, bound: bool)

  datatype Op =
    | Monitor(request: Request)
    | Raise(kind: EventKind)
    | ProcessStop
    | Destroy

  datatype Emission = Emission(session: nat, kind: bv32)

  /** `monitorSocket` is the number of the session whose socket is open. The masks,
      the closed count and the log are history. */
  datatype Mon = Mon(
    monitorSocket: Option<nat>,
    monitorEvents: bv32,
    ctxTerminated: bool,
    masks: seq<bv32>,       // one per socket ever opened
    closed: nat,
    log: seq<Emission>)

  const IDLE := Mon(None, 0, false, [], 0, [])

  function MonitorEvent(m: Mon, kind: bv32): Mon {
    if m.monitorSocket.Some? then m.(log := m.log + [Emission(m.monitorSocket.value, kind)]) else m
  }

  function StopMonitor(m: Mon, announce: bool): Mon {
    if m.monitorSocket.None? then m else
      var m1 := if Selects(m.monitorEvents, MONITOR_STOPPED) && announce then MonitorEvent(m, MONITOR_STOPPED) else m;
      m1.(closed := m1.closed + 1, monitorSocket := None, monitorEvents := 0)
  }

  function StartMonitor(m: Mon, events: bv32, created: bool, lingerSet: bool, bound: bool): Mon {
    var m1 := StopMonitor(m, true).(monitorEvents := events);
    if !created then m1 else
      var m2 := m1.(monitorSocket := Some(|m1.masks|), masks := m1.masks + [events]);
      if !lingerSet || !bound then StopMonitor(m2, false) else m2
  }

  function Step(m: Mon, op: Op): Mon {
    match op
    case Monitor(req) =>
      if m.ctxTerminated then m else (
        match req
        case Deregister => StopMonitor(m, true)
        case BadAddress => m
        case Inproc(events, created, lingerSet, bound) => StartMonitor(m, events, created, lingerSet, bound))
    case Raise(kind) => if Selects(m.monitorEvents, kind) then MonitorEvent(m, kind) else m
    case ProcessStop => StopMonitor(m, true).(ctxTerminated := true)
    case Destroy => StopMonitor(m, true)
  }

  function Run(m: Mon, ops: seq<Op>): Mon {
    if ops == [] then m else Step(Run(m, ops[..|ops| - 1]), ops[|ops| - 1])
  }

  // ---- what every run keeps

  /** Sockets opened = sockets closed + the live one, which is the last opened. */
  ghost predicate Conserved(m: Mon) {
    && |m.masks| == m.closed + (if m.monitorSocket.Some? then 1 else 0)
    && (m.monitorSocket.Some? ==> m.monitorSocket.value == |m.masks| - 1 && m.monitorEvents == m.masks[|m.masks| - 1])
  }

  /** Every entry belongs to an opened session and to that session's mask, and
      nothing of a session follows its MONITOR_STOPPED. */
  ghost predicate LogOk(m: Mon) {
    && (forall i :: 0 <= i < |m.log| ==> m.log[i].session < |m.masks| && Selects(m.masks[m.log[i].session], m.log[i].kind))
    && (forall i, j :: 0 <= i < j < |m.log| && m.log[i].kind == MONITOR_STOPPED ==> m.log[i].session != m.log[j].session)
  }

  /** The live session has not announced its end. */
  ghost predicate LiveUnannounced(m: Mon) {
    m.monitorSocket.Some? ==>
      forall i :: 0 <= i < |m.log| && m.log[i].kind == MONITOR_STOPPED ==> m.log[i].session != m.monitorSocket.value
  }

  ghost predicate Inv(m: Mon) {
    Conserved(m) && LogOk(m) && LiveUnannounced(m)
  }

  lemma StopKeepsInv(m: Mon, announce: bool)
    requires Inv(m)
    ensures Inv(StopMonitor(m, announce)) && StopMonitor(m, announce).monitorSocket.None?
  {
  }

  lemma StartKeepsInv(m: Mon, events: bv32, created: bool, lingerSet: bool, bound: bool)
    requires Inv(m)
    ensures Inv(StartMonitor(m, events, created, lingerSet, bound))
  {
    StopKeepsInv(m, true);
    var m1 := StopMonitor(m, true);
    var m2 := m1.(monitorSocket := Some(|m1.masks|), masks := m1.masks + [events], monitorEvents := events);
    StopKeepsInv(m2, false);
  }

  lemma StepKeepsInv(m: Mon, op: Op)
    requires Inv(m)
    ensures Inv(Step(m, op))
  {
    match op
    case Monitor(req) =>
      StopKeepsInv(m, true);
      if req.Inproc? {
        StartKeepsInv(m, req.events, req.created, req.lingerSet, req.bound);
      }
    case Raise(_) =>
    case ProcessStop => StopKeepsInv(m, true);
    case Destroy => StopKeepsInv(m, true);
  }

  lemma {:induction false} RunKeepsInv(ops: seq<Op>)
    ensures Inv(Run(IDLE, ops))
  {
    if ops != [] {
      RunKeepsInv(ops[..|ops| - 1]);
      StepKeepsInv(Run(IDLE, ops[..|ops| - 1]), ops[|ops| - 1]);
    }
  }

  /** Over any sequence of calls: sockets are conserved, each session's log stays
      within its mask, and MONITOR_STOPPED is a session's last entry (so at most one). */
  lemma SessionsConserved(ops: seq<Op>)
    ensures var m := Run(IDLE, ops);
            && |m.masks| == m.closed + (if m.monitorSocket.Some? then 1 else 0)
            && (forall i :: 0 <= i < |m.log| ==> m.log[i].session < |m.masks| && Selects(m.masks[m.log[i].session], m.log[i].kind))
            && (forall i, j :: 0 <= i < j < |m.log| && m.log[i].kind == MONITOR_STOPPED ==> m.log[i].session != m.log[j].session)
  {
    RunKeepsInv(ops);
  }

  /** After stop nothing is opened or emitted any more, whatever is called. */
  lemma {:induction false} StopIsFinal(ops: seq<Op>, more: seq<Op>)
    ensures var m := Run(IDLE, ops + [ProcessStop]);
            var n := Run(m, more);
            n == m && m.monitorSocket.None? && m.closed == |m.masks|
  {
    var all := ops + [ProcessStop];
    assert all[..|all| - 1] == ops;
    RunKeepsInv(all);
    var m := Run(IDLE, all);
    if more != [] {
      StopIsFinal(ops, more[..|more| - 1]);
    }
  }

  class MonitoredSocket {
    var monitorSocket: Option<nat>
    var monitorEvents: bv32
    var ctxTerminated: bool
    var masks: seq<bv32>
    var closed: nat
    var log: seq<Emission>

    function State(): Mon reads this {
      Mon(monitorSocket, monitorEvents, ctxTerminated, masks, closed, log)
    }

    constructor ()
      ensures State() == IDLE
    {
      monitorSocket, monitorEvents, ctxTerminated, masks, closed, log := None, 0, false, [], 0, [];
    }

    method Emit(kind: bv32)
      modifies this`log
      ensures State() == MonitorEvent(old(State()), kind)
    {
      if monitorSocket.Some? {
        log := log + [Emission(monitorSocket.value, kind)];
      }
    }

    method Stop(announce: bool)
      modifies this
      ensures State() == StopMonitor(old(State()), announce)
    {
      if monitorSocket.Some? {
        if Selects(monitorEvents, MONITOR_STOPPED) && announce {
          Emit(MONITOR_STOPPED);
        }
        closed := closed + 1;
        monitorSocket := None;
        monitorEvents := 0;
      }
    }

    method Monitor(req: Request) returns (rc: int)
      modifies this
      ensures State() == Step(old(State()), Op.Monitor(req))
      ensures rc == 0 <==> !old(ctxTerminated) && (req.Deregister? || (req.Inproc? && req.created && req.lingerSet && req.bound))
      ensures rc == 0 && req.Inproc? ==> monitorSocket.Some?
    {
      if ctxTerminated {
        return -1;
      }
      match req {
        case Deregister =>
          Stop(true);
          return 0;
        case BadAddress =>
          return -1;
        case Inproc(events, created, lingerSet, bound) =>
          if monitorSocket.Some? {
            Stop(true);
          }
          monitorEvents := events;
          if !created {
            return -1;
          }
          monitorSocket, masks := Some(|masks|), masks + [events];
          if !lingerSet {
            Stop(false);
          }
          // binding a socket that was just closed fails as well
          rc := if lingerSet && bound then 0 else -1;
          if rc == -1 {
            Stop(false);
          }
      }
    }

    method Raise(kind: EventKind)
      modifies this`log
      ensures State() == Step(old(State()), Op.Raise(kind))
    {
      if Selects(monitorEvents, kind) {
        Emit(kind);
      }
    }

    method ProcessStop()
      modifies this
      ensures State() == Step(old(State()), Op.ProcessStop)
    {
      Stop(true);
      ctxTerminated := true;
    }
  }
}
