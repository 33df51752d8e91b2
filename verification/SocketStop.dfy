/** Context termination as the application sees it: the stop command and what every
    later call does, whatever else goes on. */
module SocketStop {
  import opened SocketState
  import opened Endpoints
  import opened Mailbox
  import opened SocketCalls
  import opened SocketIO
  import MonitorSession

  /** The calls of the socket API that this model covers. */
  datatype Call =
    | GetOption                  // getsockopt of a plain option
    | GetEvents(poll: Poll)      // getsockopt (ZMQ_EVENTS)
    | ConnectCall(addr: Addr, lookup: Lookup, child: Child, pipe: Pipe, poll: Poll)
    | BindCall(addr: Addr, lookup: Lookup, child: Child, poll: Poll)
    | TermCall(target: Target, poll: Poll)
    | SendCall(valid: bool, dontWait: bool, tsc: nat, poll: Poll, x: XResult, start: nat, wakes: seq<Wake>)
    | RecvCallOf(args: RecvCall)
    | MonitorCall(request: MonitorSession.Request)

  function FromRc(rc: Rc): Outcome {
    if rc == Ok then Done else Failed(rc.errno)
  }

  /** A call other than monitor. */
  function Invoke(s: Sock, c: Call): (Sock, Outcome)
    requires !c.MonitorCall?
  {
    match c
    case GetOption => (s, if s.ctxTerminated then Failed(ETERM) else Done)
    case GetEvents(poll) =>
      if s.ctxTerminated then (s, Failed(ETERM)) else
        var (s1, rc) := ProcessCommands(s, 0, false, 0, poll); (s1, FromRc(rc))
    case ConnectCall(addr, lookup, child, pipe, poll) =>
      var (s1, rc) := Connect(s, addr, lookup, child, pipe, poll); (s1, FromRc(rc))
    case BindCall(addr, lookup, child, poll) =>
      var (s1, rc) := BindListener(s, addr, lookup, child, poll); (s1, FromRc(rc))
    case TermCall(target, poll) =>
      var (s1, rc) := TermEndpoint(s, target, poll); (s1, FromRc(rc))
    case SendCall(valid, dontWait, tsc, poll, x, start, wakes) =>
      var t := Send(s, valid, dontWait, tsc, poll, x, start, wakes); (t.sock, t.outcome)
    case RecvCallOf(args) =>
      var t := Recv(s, args); (t.sock, t.outcome)
  }

  /** The socket and its monitor. */
  datatype Whole = Whole(sock: Sock, mon: MonitorSession.Mon)

  datatype Event =
    | Invoked(call: Call)
    | Arrives(cmd: Cmd)
    | Recvs(signal: bool)                      // one recv made on the reaper's behalf
    | Terminates                               // the reaper starts termination
    | Raises(kind: MonitorSession.EventKind)

  function Start(opts: Options): Whole {
    Whole(NewSock(opts), MonitorSession.IDLE)
  }

  /** Whoever processes a stop stops the monitor as well. */
  function After(w: Whole, s: Sock): Whole {
    Whole(s, if s.ctxTerminated then MonitorSession.Step(w.mon, MonitorSession.ProcessStop) else w.mon)
  }

  function Calling(w: Whole, c: Call): (Whole, Outcome) {
    if c.MonitorCall? then
      (w.(mon := MonitorSession.Step(w.mon, MonitorSession.Monitor(c.request))),
       if w.mon.ctxTerminated then Failed(ETERM) else Done)
    else
      var (s, outcome) := Invoke(w.sock, c); (After(w, s), outcome)
  }

  function Step(w: Whole, e: Event): Whole {
    match e
    case Invoked(c) => Calling(w, c).0
    case Arrives(cmd) => After(w, Post(w.sock, cmd))
    case Recvs(signal) =>
      if Fails(w.sock, signal) && w.sock.ending == [] then w else After(w, OneRecv(w.sock, signal))
    case Terminates => After(w, ProcessTerm(w.sock))
    case Raises(kind) => w.(mon := MonitorSession.Step(w.mon, MonitorSession.Raise(kind)))
  }

  function Run(w: Whole, es: seq<Event>): Whole {
    if es == [] then w else Step(Run(w, es[..|es| - 1]), es[|es| - 1])
  }

  /** The same events without the application's calls. */
  function Uncalled(es: seq<Event>): seq<Event> {
    if es == [] then [] else
      Uncalled(es[..|es| - 1]) + (if es[|es| - 1].Invoked? then [] else [es[|es| - 1]])
  }

  // ---- stop is permanent

  /** The two flags agree, and a stopped monitor is closed. */
  ghost predicate Agree(w: Whole) {
    w.sock.ctxTerminated == w.mon.ctxTerminated && (w.mon.ctxTerminated ==> w.mon.monitorSocket.None?)
  }

  lemma InvokeKeepsFlag(s: Sock, c: Call)
    requires !c.MonitorCall?
    ensures s.ctxTerminated ==> Invoke(s, c) == (s, Failed(ETERM))
  {
  }

  /** What is processed after the stop leaves the flag and the endpoint map alone. */
  lemma ProcessedAfterStop(w: Whole, e: Event)
    requires Agree(w) && w.sock.ctxTerminated && !e.Invoked?
    ensures var w' := Step(w, e);
            Agree(w') && w'.sock.ctxTerminated && w'.sock.endpoints == w.sock.endpoints && w'.mon == w.mon
  {
    if e.Recvs? && !(Fails(w.sock, e.signal) && w.sock.ending == []) {
      OneRecvFrame(w.sock, e.signal);
      OneRecvRemoves(w.sock, e.signal);
      WithoutNone(w.sock.endpoints, {});
    }
  }

  lemma CalledAfterStop(w: Whole, c: Call)
    requires Agree(w) && w.sock.ctxTerminated
    ensures Calling(w, c) == (w, Failed(ETERM))
  {
    if !c.MonitorCall? {
      InvokeKeepsFlag(w.sock, c);
    }
  }

  lemma StepAgrees(w: Whole, e: Event)
    requires Agree(w)
    ensures Agree(Step(w, e))
  {
    if w.sock.ctxTerminated {
      if e.Invoked? {
        CalledAfterStop(w, e.call);
      } else {
        ProcessedAfterStop(w, e);
      }
    }
  }

  lemma {:induction false} RunAgrees(opts: Options, es: seq<Event>)
    ensures Agree(Run(Start(opts), es))
  {
    if es != [] {
      RunAgrees(opts, es[..|es| - 1]);
      StepAgrees(Run(Start(opts), es[..|es| - 1]), es[|es| - 1]);
    }
  }

  /** A call that fails with ETERM and changes nothing. */
  ghost predicate TurnedAway(w: Whole, e: Event) {
    e.Invoked? ==> Calling(w, e.call) == (w, Failed(ETERM))
  }

  lemma RunLast(w: Whole, es: seq<Event>, e: Event)
    ensures Run(w, es + [e]) == Step(Run(w, es), e)
  {
    assert (es + [e])[..|es|] == es;
  }

  lemma {:induction false} AfterStop(w: Whole, es: seq<Event>)
    requires Agree(w) && w.sock.ctxTerminated
    ensures var w' := Run(w, es);
            && Agree(w') && w'.sock.ctxTerminated && w'.sock.endpoints == w.sock.endpoints && w'.mon == w.mon
            && w' == Run(w, Uncalled(es))
    ensures forall i :: 0 <= i < |es| ==> TurnedAway(Run(w, es[..i]), es[i])
  {
    if es != [] {
      var pre, e := es[..|es| - 1], es[|es| - 1];
      AfterStop(w, pre);
      if e.Invoked? {
        CalledAfterStop(Run(w, pre), e.call);
        assert Uncalled(es) == Uncalled(pre);
      } else {
        ProcessedAfterStop(Run(w, pre), e);
        RunLast(w, Uncalled(pre), e);
      }
      forall i | 0 <= i < |es| ensures TurnedAway(Run(w, es[..i]), es[i]) {
        if i < |pre| {
          assert pre[..i] == es[..i] && pre[i] == es[i];
        } else {
          assert es[..i] == pre;
        }
      }
    }
  }

  /** Stop is permanent: however the stop came to be processed -- in a call, nested in
      one, or by the reaper -- and whatever commands arrive and are processed from then
      on, the flag never clears, every later call of the API fails with ETERM, and all
      these calls together leave the socket and its monitor as if they had not been
      made; no endpoint entry comes or goes any more. */
  lemma StopIsPermanent(opts: Options, before: seq<Event>, after: seq<Event>, w: Whole)
    requires w == Run(Start(opts), before) && w.sock.ctxTerminated
    ensures var w' := Run(w, after);
            && w'.sock.ctxTerminated && w'.sock.endpoints == w.sock.endpoints && w'.mon == w.mon
            && w'.mon.monitorSocket.None?
            && w' == Run(w, Uncalled(after))
    ensures forall i :: 0 <= i < |after| ==> TurnedAway(Run(w, after[..i]), after[i])
  {
    RunAgrees(opts, before);
    AfterStop(w, after);
  }

  // ---- the first call to meet the stop

  /** A stop that is queued is met by every reading that no signal interrupts. */
  lemma StopIsMet(s: Sock, poll: Poll)
    requires !s.ctxTerminated && Stop in s.mailbox && Unsignalled(poll)
    ensures Drain(s, poll).1 == Err(ETERM)
  {
    UnsignalledEnds(s, poll, |s.ending|);
    DrainFrame(s, poll);
    DrainHandles(s, poll);
    AllHandled(s.mailbox, DrainLog(s, poll));
  }

  lemma AllHandled(mailbox: seq<Cmd>, l: Log)
    requires Stop in mailbox && l.handled + [] == mailbox + l.came
    ensures Stop in l.handled
  {
    assert Stop in mailbox + l.came;
    assert l.handled + [] == l.handled;
  }

  lemma TermMeetsStop(s: Sock, t: Target, poll: Poll)
    requires !s.ctxTerminated && !t.Null? && Stop in s.mailbox && Unsignalled(poll)
    ensures TermEndpoint(s, t, poll) == (TermDrained(s, t, poll), Err(ETERM))
  {
    UnsignalledEnds(EnterTerm(s, t), poll, |s.ending| + 1);
    TermDrainedFrame(s, t, poll);
    AllHandled(s.mailbox, LogTo(EnterTerm(s, t), poll, |s.ending| + 1));
  }

  /** The polls of a call that reads the mailbox before it acts. */
  ghost predicate Reads(c: Call, poll: Poll) {
    match c
    case GetEvents(p) => p == poll
    case ConnectCall(_, _, _, _, p) => p == poll
    case BindCall(_, _, _, p) => p == poll
    case _ => false
  }

  /** The call that finds the stop queued is the first to fail: it has read the mailbox
      and does nothing of its own. */
  lemma CallMeetsStop(s: Sock, c: Call, poll: Poll)
    requires Reads(c, poll) && !s.ctxTerminated && Stop in s.mailbox && Unsignalled(poll)
    ensures Invoke(s, c) == (Drain(s, poll).0, Failed(ETERM))
  {
    StopIsMet(s, poll);
  }

  /** A blocked send or recv that meets the stop ends there: in the turn in which the
      stop was processed the socket type is not asked, whatever it would have said, and
      in the turns before it said "again", so nothing is transferred. */
  lemma BlockedMeetsStop(s: Sock, timeout: int, end: nat, block: bool, wakes: seq<Wake>, t: Trace)
    requires !s.ctxTerminated && t == Loop(s, timeout, end, block, wakes) && t.sock.ctxTerminated
    ensures t.outcome == Failed(ETERM) || t.outcome == Failed(EINTR)
    ensures |t.answers| == |t.waits| - 1 && forall k :: 0 <= k < |t.answers| ==> t.answers[k] == Again
  {
    LoopKeeps(s, timeout, end, block, wakes, t);
    LoopAsks(s, timeout, end, block, wakes, t);
  }

  /** And it does meet a stop that is queued when it is woken. */
  lemma BlockedIsWoken(s: Sock, timeout: int, end: nat, block: bool, wakes: seq<Wake>)
    requires !s.ctxTerminated && wakes != [] && Stop in s.mailbox && Unsignalled(wakes[0].poll)
    ensures var t := Loop(s, timeout, end, block, wakes);
            t.outcome == Failed(ETERM) && t.answers == [] && |t.waits| == 1
  {
    StopIsMet(s, wakes[0].poll);
  }
}
