/** What the application's calls do to a socket: process_commands with its throttle,
    connect and bind for session transports, and term_endpoint. */
module SocketCalls {
  import opened SocketState
  import opened Endpoints
  import opened Mailbox

  // ---- process_commands

  /** What process_commands makes of how its reading ended. */
  function Answer(s: Sock, errno: Errno): Rc {
    if errno == EINTR then Err(EINTR) else if s.ctxTerminated then Err(ETERM) else Ok
  }

  /** Reads the mailbox until it is empty, or until a signal. */
  function Drain(s: Sock, poll: Poll): (Sock, Rc) {
    var r := ReadTo(s, poll, |s.ending|);
    (r.sock, Answer(r.sock, r.errno))
  }

  /** The time stamp counter says commands were looked at recently. */
  predicate Throttled(s: Sock, tsc: nat) {
    tsc != 0 && tsc >= s.lastTsc && tsc - s.lastTsc <= s.opts.maxCommandDelay
  }

  function ProcessCommands(s: Sock, timeout: int, throttle: bool, tsc: nat, poll: Poll): (Sock, Rc) {
    if timeout == 0 && throttle && tsc != 0 then
      if Throttled(s, tsc) then (s, Ok) else Drain(s.(lastTsc := tsc), poll)
    else
      Drain(s, poll)
  }

  function DrainLog(s: Sock, poll: Poll): Log {
    LogTo(s, poll, |s.ending|)
  }

  /** How a reading ends: with the mailbox empty -- and ETERM iff a stop was handled now
      or before -- or in EINTR, the rest of the commands still there. */
  lemma DrainFrame(s: Sock, poll: Poll)
    ensures var (s', rc) := Drain(s, poll);
            && SameRest(s, s') && s'.ending == s.ending
            && (rc == Ok || rc == Err(ETERM) || rc == Err(EINTR))
            && (rc != Err(EINTR) ==> s'.mailbox == [] && s'.undrained == 0)
            && (s'.ctxTerminated <==> s.ctxTerminated || Stop in DrainLog(s, poll).handled)
            && (rc == Ok ==> !s'.ctxTerminated)
            && (rc == Err(ETERM) ==> s'.ctxTerminated)
  {
    ReadFrame(s, poll, |s.ending|);
    StopHandled(s, poll, |s.ending|);
    assert s.ending[..|s.ending|] == s.ending;
  }

  /** The commands handled are those queued and arrived, in order, up to those left. */
  lemma DrainHandles(s: Sock, poll: Poll)
    ensures var l := DrainLog(s, poll);
            && l.handled + Drain(s, poll).0.mailbox == s.mailbox + l.came
            && Drain(s, poll).0.endpoints == Without(s.endpoints, l.gone)
            && forall a :: a in l.gone ==> Requested(l.handled, [], a)
  {
    HandledInOrder(s, poll, |s.ending|);
    OnlyAskedGo(s, poll, |s.ending|);
    assert s.ending[|s.ending|..] == [];
  }

  lemma DrainKeeps(s: Sock, poll: Poll)
    requires SockInv(s) && Lawful(s, poll, |s.ending|)
    ensures SockInv(Drain(s, poll).0)
  {
    ReadKeeps(s, poll, |s.ending|);
  }

  // ---- connect and bind

  /** What connect finds out about its address before it creates a session. */
  datatype Lookup = BadUri | NoThread | BadAddress | Usable

  function AddEndpoint(s: Sock, addr: Addr, child: Child, pipe: Pipe): Sock {
    s.(mailbox := s.mailbox + [Own(child)], own := s.own.(sentSeqnum := s.own.sentSeqnum + 1),
       endpoints := s.endpoints + [Entry(addr, child, pipe)])
  }

  /** connect after its process_commands; `child` and `pipe` are what it allocates. */
  function StartSession(s: Sock, addr: Addr, lookup: Lookup, child: Child, pipe: Pipe): (Sock, Rc) {
    if lookup == BadUri then (s, Err(EINVAL))
    else if s.opts.singleConnect && Listed(s.endpoints, addr) then (s, Ok)
    else if lookup == NoThread then (s, Err(EMTHREAD))
    else if lookup == BadAddress then (s, Err(EINVAL))
    else if s.opts.immediate then (AddEndpoint(s, addr, child, NULL), Ok)
    else (AddEndpoint(AttachPipe(s, pipe), addr, child, pipe), Ok)
  }

  /** connect over a session transport. */
  function Connect(s: Sock, addr: Addr, lookup: Lookup, child: Child, pipe: Pipe, poll: Poll): (Sock, Rc) {
    if s.ctxTerminated then (s, Err(ETERM)) else
      var (s1, rc) := ProcessCommands(s, 0, false, 0, poll);
      if rc != Ok then (s1, rc) else StartSession(s1, addr, lookup, child, pipe)
  }

  /** bind after its process_commands; `child` is the listener it allocates. */
  function StartListener(s: Sock, addr: Addr, lookup: Lookup, child: Child): (Sock, Rc) {
    match lookup
    case BadUri => (s, Err(EINVAL))
    case NoThread => (s, Err(EMTHREAD))
    case BadAddress => (s, Err(OTHER))
    case Usable => (AddEndpoint(s, addr, child, NULL), Ok)
  }

  /** bind over a session transport. */
  function BindListener(s: Sock, addr: Addr, lookup: Lookup, child: Child, poll: Poll): (Sock, Rc) {
    if s.ctxTerminated then (s, Err(ETERM)) else
      var (s1, rc) := ProcessCommands(s, 0, false, 0, poll);
      if rc != Ok then (s1, rc) else StartListener(s1, addr, lookup, child)
  }

  // ---- term_endpoint

  /** Its reading of the mailbox, called by the application or nested in another. */
  function TermReading(s: Sock, t: Target, poll: Poll): Read
    requires !s.ctxTerminated && !t.Null?
  {
    ReadTo(EnterTerm(s, t), poll, |s.ending| + 1)
  }

  /** The socket when that reading is over. */
  function TermDrained(s: Sock, t: Target, poll: Poll): Sock
    requires !s.ctxTerminated && !t.Null?
  {
    TermReading(s, t, poll).sock.(ending := s.ending)
  }

  function TermEndpoint(s: Sock, t: Target, poll: Poll): (Sock, Rc) {
    if s.ctxTerminated then (s, Err(ETERM))
    else if t.Null? then (s, Err(EINVAL))
    else
      var d := TermDrained(s, t, poll);
      var rc := Answer(d, TermReading(s, t, poll).errno);
      if rc != Ok then (d, rc) else EndIt(d, t)
  }

  /** A null address is refused before the mailbox is looked at. */
  lemma NullRefused(s: Sock, poll: Poll)
    ensures TermEndpoint(s, Null, poll) == (s, Err(if s.ctxTerminated then ETERM else EINVAL))
  {
  }

  /** The call made for a command is this one, its result dropped. */
  lemma ReturnIsTerm(s: Sock, t: Target, poll: Poll)
    requires !s.ctxTerminated && !t.Null?
    ensures var r := TermReading(s, t, poll);
            r.sock.ending == s.ending + [t] && Return(r.sock, r.errno) == TermEndpoint(s, t, poll).0
  {
    var r := TermReading(s, t, poll);
    assert (s.ending + [t])[..|s.ending| + 1] == s.ending + [t];
    assert (s.ending + [t])[..|s.ending|] == s.ending;
  }

  lemma TermDrainedFrame(s: Sock, t: Target, poll: Poll)
    requires !s.ctxTerminated && !t.Null?
    ensures var d, r, l := TermDrained(s, t, poll), TermReading(s, t, poll), LogTo(EnterTerm(s, t), poll, |s.ending| + 1);
            && SameRest(s, d)
            && (r.errno != EINTR ==> d.mailbox == [] && d.undrained == 0)
            && (d.ctxTerminated <==> Stop in l.handled)
            && l.handled + d.mailbox == s.mailbox + l.came
            && d.endpoints == Without(s.endpoints, l.gone)
            && forall a :: a in l.gone ==> Requested(l.handled, [], a)
  {
    var s1, depth := EnterTerm(s, t), |s.ending| + 1;
    ReadFrame(s1, poll, depth);
    StopHandled(s1, poll, depth);
    HandledInOrder(s1, poll, depth);
    OnlyAskedGo(s1, poll, depth);
    assert s1.ending[depth..] == [];
  }

  lemma TermDrainedKeeps(s: Sock, t: Target, poll: Poll)
    requires !s.ctxTerminated && !t.Null? && SockInv(s) && Lawful(EnterTerm(s, t), poll, |s.ending| + 1)
    ensures SockInv(TermDrained(s, t, poll))
  {
    var s1 := EnterTerm(s, t);
    SameKeeps(s, s1);
    ReadKeeps(s1, poll, |s.ending| + 1);
    SameKeeps(TermReading(s, t, poll).sock, TermDrained(s, t, poll));
  }

  /** term_endpoint, whatever is pending or arrives -- other requests to end an address
      among it.  A signal or the stop makes it do nothing of its own; else its effect
      on the socket as its reading left it is exact. */
  lemma TermEndpointExact(s: Sock, t: Target, poll: Poll, d: Sock)
    requires !s.ctxTerminated && !t.Null? && SockInv(s) && Lawful(EnterTerm(s, t), poll, |s.ending| + 1)
    requires d == TermDrained(s, t, poll)
    ensures var (s', rc), errno := TermEndpoint(s, t, poll), TermReading(s, t, poll).errno;
            && SockInv(s')
            && if errno == EINTR then s' == d && rc == Err(EINTR)
               else if d.ctxTerminated then s' == d && rc == Err(ETERM)
               else EndedExactly(d, t, s', rc)
  {
    TermDrainedKeeps(s, t, poll);
    TermDrainedFrame(s, t, poll);
    EndItKeeps(d, t);
    if TermReading(s, t, poll).errno == EAGAIN {
      EndItExact(d, t);
    }
  }

  /** Who comes first: when the reading carries out a request for the same address, the
      call finds nothing left to end. */
  lemma RequestedFirst(s: Sock, addr: Addr, poll: Poll)
    requires !s.ctxTerminated && Answer(TermDrained(s, Known(addr), poll), TermReading(s, Known(addr), poll).errno) == Ok
    requires addr in LogTo(EnterTerm(s, Known(addr)), poll, |s.ending| + 1).gone
    ensures TermEndpoint(s, Known(addr), poll) == (TermDrained(s, Known(addr), poll), Err(ENOENT))
  {
    TermDrainedFrame(s, Known(addr), poll);
    NothingMatches(s.endpoints, LogTo(EnterTerm(s, Known(addr)), poll, |s.ending| + 1).gone, addr);
  }

  /** Nobody asks for a by another address that resolves to it. */
  ghost predicate Direct(cmds: seq<Cmd>, a: Addr) {
    forall i :: 0 <= i < |cmds| && cmds[i].TermEp? && a in Forms(cmds[i].target) ==> RequestFor(cmds[i], a)
  }

  /** What is queued when the call begins and what comes while it reads. */
  function Met(s: Sock, t: Target, poll: Poll): seq<Cmd>
    requires !s.ctxTerminated && !t.Null?
  {
    s.mailbox + LogTo(EnterTerm(s, t), poll, |s.ending| + 1).came
  }

  lemma MetIsHandled(s: Sock, t: Target, poll: Poll)
    requires !s.ctxTerminated && !t.Null? && Unsignalled(poll)
    ensures LogTo(EnterTerm(s, t), poll, |s.ending| + 1).handled == Met(s, t, poll)
    ensures TermReading(s, t, poll).errno == EAGAIN
    ensures Stop !in Met(s, t, poll) ==> !TermDrained(s, t, poll).ctxTerminated
  {
    UnsignalledEnds(EnterTerm(s, t), poll, |s.ending| + 1);
    TermDrainedFrame(s, t, poll);
    var h := LogTo(EnterTerm(s, t), poll, |s.ending| + 1).handled;
    assert h + [] == h;
  }

  /** An address is listed after the reading iff it was before and nobody asked for it. */
  lemma ListedAfter(s: Sock, t: Target, poll: Poll, a: Addr)
    requires !s.ctxTerminated && !t.Null? && Unsignalled(poll) && Stop !in Met(s, t, poll) && Direct(Met(s, t, poll), a)
    ensures Listed(TermDrained(s, t, poll).endpoints, a)
       <==> Listed(s.endpoints, a) && forall i :: 0 <= i < |Met(s, t, poll)| ==> !RequestFor(Met(s, t, poll)[i], a)
  {
    var s1, depth, d := EnterTerm(s, t), |s.ending| + 1, TermDrained(s, t, poll);
    var l := LogTo(s1, poll, depth);
    MetIsHandled(s, t, poll);
    TermDrainedFrame(s, t, poll);
    if i :| 0 <= i < |l.handled| && RequestFor(l.handled[i], a) {
      CarriedOut(s1, poll, depth, a);
    } else if Listed(s.endpoints, a) {
      assert a !in l.gone;
      WithoutIn(s.endpoints, l.gone);
    } else {
      WithoutUnlisted(s.endpoints, l.gone, a);
    }
  }

  /** When a call that no signal and no stop gets in the way of succeeds: iff some form of
      its address that is tried was listed and nobody asked for that form before it. */
  lemma SucceedsIff(s: Sock, t: Target, poll: Poll)
    requires !s.ctxTerminated && (t.Known? || t.Tcp?) && Unsignalled(poll) && Stop !in Met(s, t, poll)
    requires forall a :: a in Forms(t) ==> Direct(Met(s, t, poll), a)
    ensures TermEndpoint(s, t, poll).1 == Ok
       <==> exists a :: a in Forms(t) && Listed(s.endpoints, a) && forall i :: 0 <= i < |Met(s, t, poll)| ==> !RequestFor(Met(s, t, poll)[i], a)
  {
    var d := TermDrained(s, t, poll);
    MetIsHandled(s, t, poll);
    KeyFinds(d.endpoints, t);
    MatchingIn(d.endpoints, Key(d.endpoints, t));
    forall a | a in Forms(t)
      ensures Listed(d.endpoints, a) <==> Listed(s.endpoints, a) && forall i :: 0 <= i < |Met(s, t, poll)| ==> !RequestFor(Met(s, t, poll)[i], a)
    {
      ListedAfter(s, t, poll, a);
    }
    SomeFormListed(d.endpoints, t);
  }

  lemma SomeFormListed(es: seq<Entry>, t: Target)
    requires t.Known? || t.Tcp?
    ensures Listed(es, Key(es, t)) <==> exists a :: a in Forms(t) && Listed(es, a)
  {
    assert Key(es, t) in Forms(t);
  }
}
