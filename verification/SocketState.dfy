/** A socket of libzmq's socket_base.cpp as a value, and what each of its lifecycle
    functions does to it.

    own_t, pipe_t, the mailbox and ctx are not in the repository; their part is
    written here as the assumptions README.md lists. */
module SocketState {
  import opened Wrappers

  /** Pointers, as identities that are never reused; 0 is the null pointer. */
  type Pipe = nat
  type Child = nat
  type Addr = string

  const NULL: Pipe := 0

  /** An address to end, as term_endpoint sees it: null, unusable, of a session
      transport, of tcp with what it resolves to as a peer's and as a local address
      (where it does), or of inproc, and whether it was bound and registered here. */
  datatype Target =
    | Null
    | Bad
    | Known(addr: Addr)
    | Tcp(addr: Addr, remote: Option<Addr>, local: Option<Addr>)
    | Inproc(addr: Addr, unregistered: bool)

  datatype Cmd =
    | Stop                     // zmq_ctx_term was called
    | Bind(pipe: Pipe)         // the far end of an inproc connection
    | Own(child: Child)        // from launch_child
    | TermReq(child: Child)    // a child wants to terminate
    | TermAck(child: Child)    // a child has terminated
    | PipeTermAck(pipe: Pipe)  // a pipe has terminated
    | TermEp(target: Target)   // a session wants its endpoint ended

  datatype Entry = Entry(addr: Addr, child: Child, pipe: Pipe)

  datatype InprocEntry = InprocEntry(addr: Addr, pipe: Pipe)

  datatype Errno = ETERM | EINTR | EAGAIN | EINVAL | EMTHREAD | ENOENT | EFAULT | OTHER

  datatype Rc = Ok | Err(errno: Errno)

  /** singleConnect: DEALER, SUB, PUB or REQ. */
  datatype Options = Options(
    singleConnect: bool,
    immediate: bool,
    sndtimeo: int,
    rcvtimeo: int,
    inboundPollRate: nat,
    maxCommandDelay: nat)

  /** The own_t part of a socket. `termSent`, `waiting` and `promised` are history:
      the children told to terminate, those of them that have not acknowledged, and
      the binds promised by find_endpoint but not yet sent. */
  datatype OwnPart = OwnPart(
    owned: set<Child>,
    termSent: set<Child>,
    waiting: set<Child>,
    termAcks: int,
    sentSeqnum: nat,
    processedSeqnum: nat,
    promised: nat,
    terminating: bool,
    destroyed: bool)

  /** `ending` are the calls of term_endpoint, outermost first, that are reading the
      mailbox before they act. `asked` and `undrained` are history: the calls of
      pipe->terminate, and the messages handed to the application since the mailbox
      was last emptied. */
  datatype Sock = Sock(
    opts: Options,
    own: OwnPart,
    pipes: seq<Pipe>,
    asked: seq<Pipe>,
    endpoints: seq<Entry>,
    inprocs: seq<InprocEntry>,
    ctxTerminated: bool,
    mailbox: seq<Cmd>,
    ending: seq<Target>,
    lastTsc: nat,
    ticks: nat,
    undrained: nat)

  const NEW_OWN := OwnPart({}, {}, {}, 0, 0, 0, 0, false, false)

  function NewSock(opts: Options): Sock {
    Sock(opts, NEW_OWN, [], [], [], [], false, [], [], 0, 0, 0)
  }

  // ---- own_t

  function CheckTermAcks(o: OwnPart): OwnPart {
    if o.terminating && o.processedSeqnum == o.sentSeqnum && o.termAcks == 0 then o.(destroyed := true) else o
  }

  function UnregisterTermAck(o: OwnPart): OwnPart {
    CheckTermAcks(o.(termAcks := o.termAcks - 1))
  }

  function ProcessSeqnum(o: OwnPart): OwnPart {
    CheckTermAcks(o.(processedSeqnum := o.processedSeqnum + 1))
  }

  function TellChild(o: OwnPart, c: Child): OwnPart {
    o.(termAcks := o.termAcks + 1, termSent := o.termSent + {c}, waiting := o.waiting + {c})
  }

  /** term_child, and a child's own request to terminate. */
  function TermChild(o: OwnPart, c: Child): OwnPart {
    if o.terminating || c !in o.owned then o else TellChild(o.(owned := o.owned - {c}), c)
  }

  function ProcessOwn(o: OwnPart, c: Child): OwnPart {
    if o.terminating then TellChild(o, c) else o.(owned := o.owned + {c})
  }

  function ProcessTermAck(o: OwnPart, c: Child): OwnPart {
    UnregisterTermAck(o.(waiting := o.waiting - {c}))
  }

  /** own_t's half of process_term. */
  function OwnProcessTerm(o: OwnPart): OwnPart {
    CheckTermAcks(o.(termSent := o.termSent + o.owned, waiting := o.waiting + o.owned,
                     termAcks := o.termAcks + |o.owned|, owned := {}, terminating := true))
  }

  // ---- socket_base_t

  function AttachPipe(s: Sock, p: Pipe): Sock {
    var s1 := s.(pipes := s.pipes + [p]);
    if s.own.terminating then s1.(own := s.own.(termAcks := s.own.termAcks + 1), asked := s.asked + [p]) else s1
  }

  function ProcessTerm(s: Sock): Sock {
    s.(asked := s.asked + s.pipes, own := OwnProcessTerm(s.own.(termAcks := s.own.termAcks + |s.pipes|)))
  }

  function Remove(pipes: seq<Pipe>, p: Pipe): seq<Pipe> {
    if pipes == [] then [] else if pipes[0] == p then pipes[1..] else [pipes[0]] + Remove(pipes[1..], p)
  }

  function RemoveInproc(es: seq<InprocEntry>, p: Pipe): seq<InprocEntry> {
    if es == [] then [] else if es[0].pipe == p then es[1..] else [es[0]] + RemoveInproc(es[1..], p)
  }

  function PipeTerminated(s: Sock, p: Pipe): Sock {
    s.(inprocs := RemoveInproc(s.inprocs, p), pipes := Remove(s.pipes, p),
       own := if s.own.terminating then UnregisterTermAck(s.own) else s.own)
  }

  function ProcessStop(s: Sock): Sock {
    s.(ctxTerminated := true)
  }

  /** term_endpoint up to its own reading of the mailbox. */
  function EnterTerm(s: Sock, t: Target): Sock {
    if s.ctxTerminated || t.Null? then s else s.(ending := s.ending + [t])
  }

  function ProcessCommand(s: Sock, cmd: Cmd): (s': Sock)
    ensures s'.mailbox == s.mailbox
    ensures s'.ending == s.ending || (cmd.TermEp? && s'.ending == s.ending + [cmd.target])
  {
    match cmd
    case Stop => ProcessStop(s)
    case Bind(p) => var s1 := AttachPipe(s, p); s1.(own := ProcessSeqnum(s1.own))
    case Own(c) => s.(own := ProcessSeqnum(ProcessOwn(s.own, c)))
    case TermReq(c) => s.(own := TermChild(s.own, c))
    case TermAck(c) => s.(own := ProcessTermAck(s.own, c))
    case PipeTermAck(p) => PipeTerminated(s, p)
    case TermEp(t) => EnterTerm(s, t)
  }

  /** Takes the first command out of the mailbox and processes it. */
  function TakeOne(s: Sock): Sock
    requires s.mailbox != []
  {
    ProcessCommand(s.(mailbox := s.mailbox[1..]), s.mailbox[0])
  }

  /** A command arrives; a bind redeems the promise made by find_endpoint. */
  function Post(s: Sock, cmd: Cmd): Sock {
    s.(mailbox := s.mailbox + [cmd],
       own := if cmd.Bind? && s.own.promised > 0 then s.own.(promised := s.own.promised - 1) else s.own)
  }

  /** k commands, oldest first. */
  function Take(s: Sock, k: nat): Sock {
    if k == 0 then s else
      var s1 := Take(s, k - 1);
      if s1.mailbox == [] then s1 else TakeOne(s1)
  }

  /** What no command touches. */
  ghost predicate SameFrame(s: Sock, s': Sock) {
    && s'.mailbox == s.mailbox && s'.endpoints == s.endpoints && s'.opts == s.opts
    && s'.lastTsc == s.lastTsc && s'.ticks == s.ticks && s'.undrained == s.undrained
    && s'.own.terminating == s.own.terminating && s'.own.promised == s.own.promised && s'.own.sentSeqnum == s.own.sentSeqnum
  }

  lemma CommandFrame(s: Sock, cmd: Cmd)
    ensures SameFrame(s, ProcessCommand(s, cmd))
    ensures ProcessCommand(s, cmd).ctxTerminated <==> s.ctxTerminated || cmd == Stop
  {
  }

  // ---- the invariant of a socket

  ghost predicate Distinct(pipes: seq<Pipe>) {
    && NULL !in pipes
    && forall i, j :: 0 <= i < j < |pipes| ==> pipes[i] != pipes[j]
  }

  /** Commands that are posted at most once. */
  predicate Single(cmd: Cmd) {
    cmd.Bind? || cmd.Own? || cmd.TermAck? || cmd.PipeTermAck?
  }

  ghost predicate CmdOk(s: Sock, cmd: Cmd) {
    match cmd
    case Bind(p) => p != NULL && p !in s.pipes
    case Own(c) => c !in s.own.owned && c !in s.own.termSent
    case TermAck(c) => c in s.own.waiting
    case PipeTermAck(p) => p in s.pipes
    case _ => true
  }

  ghost predicate MailOk(s: Sock) {
    && (forall i :: 0 <= i < |s.mailbox| ==> CmdOk(s, s.mailbox[i]))
    && (forall i, j :: 0 <= i < j < |s.mailbox| && Single(s.mailbox[i]) ==> s.mailbox[i] != s.mailbox[j])
  }

  /** Commands that count in the sequence numbers. */
  function Counted(cmds: seq<Cmd>): nat {
    if cmds == [] then 0 else
      (if cmds[0].Bind? || cmds[0].Own? then 1 else 0) + Counted(cmds[1..])
  }

  /** Outstanding acks: one per child told to terminate that has not answered, and,
      once terminating, one per attached pipe -- each of which was asked. */
  ghost predicate AcksOk(s: Sock) {
    && s.own.termAcks == |s.own.waiting| + (if s.own.terminating then |s.pipes| else 0)
    && s.own.waiting <= s.own.termSent && s.own.owned !! s.own.termSent
    && (s.own.terminating ==> s.own.owned == {} && forall i :: 0 <= i < |s.pipes| ==> s.pipes[i] in s.asked)
  }

  ghost predicate SeqnumOk(s: Sock) {
    s.own.sentSeqnum == s.own.processedSeqnum + Counted(s.mailbox) + s.own.promised
  }

  /** Destroyed exactly when terminating with nothing outstanding. */
  ghost predicate DestroyedOk(s: Sock) {
    s.own.destroyed <==> s.own.terminating && s.own.termAcks == 0 && s.own.sentSeqnum == s.own.processedSeqnum
  }

  /** Every listed session has been, or is about to be, taken over by the socket. */
  ghost predicate EndpointsOk(s: Sock) {
    forall i :: 0 <= i < |s.endpoints| ==>
      var c := s.endpoints[i].child; c in s.own.owned || c in s.own.termSent || Own(c) in s.mailbox
  }

  ghost predicate ListedOnce(es: seq<InprocEntry>) {
    forall i, j :: 0 <= i < j < |es| ==> es[i].pipe != es[j].pipe
  }

  /** Every listed inproc pipe is attached, and listed once. */
  ghost predicate InprocsOk(s: Sock) {
    && (forall i :: 0 <= i < |s.inprocs| ==> s.inprocs[i].pipe in s.pipes)
    && ListedOnce(s.inprocs)
  }

  ghost predicate SockInv(s: Sock) {
    && Distinct(s.pipes)
    && MailOk(s)
    && AcksOk(s)
    && SeqnumOk(s)
    && DestroyedOk(s)
    && EndpointsOk(s)
    && InprocsOk(s)
  }

  /** What may arrive at a socket in this state: never own commands, which only the
      socket's own thread posts, and a bind only when promised. */
  ghost predicate PostOk(s: Sock, cmd: Cmd) {
    && CmdOk(s, cmd) && (Single(cmd) ==> cmd !in s.mailbox)
    && !cmd.Own? && (cmd.Bind? ==> s.own.promised > 0)
  }

  // ---- helpers

  lemma {:induction false} RemoveOne(pipes: seq<Pipe>, p: Pipe)
    requires Distinct(pipes) && p in pipes
    ensures |Remove(pipes, p)| == |pipes| - 1 && Distinct(Remove(pipes, p))
    ensures forall q :: q in Remove(pipes, p) <==> q in pipes && q != p
  {
    assert pipes == [pipes[0]] + pipes[1..];
    if pipes[0] != p {
      RemoveOne(pipes[1..], p);
      var r := Remove(pipes[1..], p);
      forall j | 0 <= j < |r| ensures r[j] != pipes[0] {
        assert r[j] in pipes[1..];
      }
    }
  }

  lemma {:induction false} RemoveInprocOne(es: seq<InprocEntry>, p: Pipe)
    requires ListedOnce(es)
    ensures var r := RemoveInproc(es, p);
            ListedOnce(r) && forall e :: e in r <==> e in es && e.pipe != p
  {
    if es != [] {
      var tail := es[1..];
      assert es == [es[0]] + tail;
      assert forall i :: 0 <= i < |tail| ==> tail[i] == es[i + 1];
      if es[0].pipe != p {
        RemoveInprocOne(tail, p);
        var r := RemoveInproc(tail, p);
        forall j | 0 <= j < |r| ensures r[j].pipe != es[0].pipe {
          assert r[j] in tail;
        }
      }
    }
  }

  lemma {:induction false} CountedLast(cmds: seq<Cmd>, cmd: Cmd)
    ensures Counted(cmds + [cmd]) == Counted(cmds) + if cmd.Bind? || cmd.Own? then 1 else 0
  {
    if cmds != [] {
      assert (cmds + [cmd])[1..] == cmds[1..] + [cmd];
      CountedLast(cmds[1..], cmd);
    }
  }

  // ---- one command keeps the invariant

  /** The state between taking the first command out of the mailbox and processing it. */
  ghost predicate Taken(s: Sock, cmd: Cmd, mid: Sock) {
    s.mailbox != [] && cmd == s.mailbox[0] && mid == s.(mailbox := s.mailbox[1..])
  }

  lemma RestOk(s: Sock, cmd: Cmd, mid: Sock)
    requires SockInv(s) && Taken(s, cmd, mid)
    ensures MailOk(mid) && CmdOk(mid, cmd) && (Single(cmd) ==> cmd !in mid.mailbox)
    ensures Counted(s.mailbox) == Counted(mid.mailbox) + if cmd.Bind? || cmd.Own? then 1 else 0
    ensures forall c: Child :: Own(c) in s.mailbox ==> cmd == Own(c) || Own(c) in mid.mailbox
  {
    assert CmdOk(s, s.mailbox[0]);
    assert s.mailbox == [cmd] + mid.mailbox;
    forall i | 0 <= i < |mid.mailbox| ensures CmdOk(mid, mid.mailbox[i]) {
      assert CmdOk(s, s.mailbox[i + 1]);
    }
  }

  lemma BindKeeps(s: Sock, p: Pipe, mid: Sock)
    requires SockInv(s) && Taken(s, Bind(p), mid)
    ensures SockInv(ProcessCommand(mid, Bind(p)))
  {
    RestOk(s, Bind(p), mid);
    var s' := ProcessCommand(mid, Bind(p));
    forall i | 0 <= i < |s'.mailbox| ensures CmdOk(s', s'.mailbox[i]) {
      assert CmdOk(mid, mid.mailbox[i]);
      assert s'.mailbox[i] in mid.mailbox;
    }
  }

  lemma OwnKeeps(s: Sock, c: Child, mid: Sock)
    requires SockInv(s) && Taken(s, Own(c), mid)
    ensures SockInv(ProcessCommand(mid, Own(c)))
  {
    RestOk(s, Own(c), mid);
    var s' := ProcessCommand(mid, Own(c));
    forall i | 0 <= i < |s'.mailbox| ensures CmdOk(s', s'.mailbox[i]) {
      assert CmdOk(mid, mid.mailbox[i]);
      assert s'.mailbox[i] in mid.mailbox;
    }
  }

  lemma TermReqKeeps(s: Sock, c: Child, mid: Sock)
    requires SockInv(s) && Taken(s, TermReq(c), mid)
    ensures SockInv(ProcessCommand(mid, TermReq(c)))
  {
    RestOk(s, TermReq(c), mid);
  }

  lemma TermAckKeeps(s: Sock, c: Child, mid: Sock)
    requires SockInv(s) && Taken(s, TermAck(c), mid)
    ensures SockInv(ProcessCommand(mid, TermAck(c)))
  {
    RestOk(s, TermAck(c), mid);
    var s' := ProcessCommand(mid, TermAck(c));
    forall i | 0 <= i < |s'.mailbox| ensures CmdOk(s', s'.mailbox[i]) {
      assert CmdOk(mid, mid.mailbox[i]);
      assert s'.mailbox[i] in mid.mailbox;
    }
  }

  lemma PipeTermAckKeeps(s: Sock, p: Pipe, mid: Sock)
    requires SockInv(s) && Taken(s, PipeTermAck(p), mid)
    ensures SockInv(ProcessCommand(mid, PipeTermAck(p)))
  {
    RestOk(s, PipeTermAck(p), mid);
    RemoveOne(mid.pipes, p);
    RemoveInprocOne(mid.inprocs, p);
    var s' := ProcessCommand(mid, PipeTermAck(p));
    assert s'.pipes == Remove(mid.pipes, p);
    forall i | 0 <= i < |s'.mailbox| ensures CmdOk(s', s'.mailbox[i]) {
      assert CmdOk(mid, mid.mailbox[i]);
      assert s'.mailbox[i] in mid.mailbox;
    }
    forall i | 0 <= i < |s'.pipes| ensures s'.own.terminating ==> s'.pipes[i] in s'.asked {
      assert s'.pipes[i] in mid.pipes;
    }
    forall i | 0 <= i < |s'.inprocs| ensures s'.inprocs[i].pipe in s'.pipes {
      assert s'.inprocs[i] in mid.inprocs;
    }
  }

  /** Nothing the invariant speaks of has changed. */
  lemma SameKeeps(s: Sock, s': Sock)
    requires SockInv(s) && s'.own == s.own && s'.pipes == s.pipes && s'.asked == s.asked
    requires s'.mailbox == s.mailbox && s'.endpoints == s.endpoints && s'.inprocs == s.inprocs
    ensures SockInv(s')
  {
    forall i | 0 <= i < |s.mailbox| ensures CmdOk(s', s'.mailbox[i]) {
      assert CmdOk(s, s.mailbox[i]);
    }
  }

  lemma TermEpKeeps(s: Sock, t: Target, mid: Sock)
    requires SockInv(s) && Taken(s, TermEp(t), mid)
    ensures SockInv(ProcessCommand(mid, TermEp(t)))
  {
    RestOk(s, TermEp(t), mid);
    SameKeeps(mid, ProcessCommand(mid, TermEp(t)));
  }

  lemma PostKeeps(s: Sock, cmd: Cmd)
    requires SockInv(s) && PostOk(s, cmd)
    ensures SockInv(Post(s, cmd))
  {
    var s' := Post(s, cmd);
    forall i | 0 <= i < |s'.mailbox| ensures CmdOk(s', s'.mailbox[i]) {
      if i < |s.mailbox| {
        assert CmdOk(s, s.mailbox[i]);
      }
    }
    CountedLast(s.mailbox, cmd);
  }

  lemma CommandKeeps(s: Sock)
    requires SockInv(s) && s.mailbox != []
    ensures SockInv(TakeOne(s))
  {
    var mid := s.(mailbox := s.mailbox[1..]);
    match s.mailbox[0]
    case Stop => RestOk(s, Stop, mid);
    case Bind(p) => BindKeeps(s, p, mid);
    case Own(c) => OwnKeeps(s, c, mid);
    case TermReq(c) => TermReqKeeps(s, c, mid);
    case TermAck(c) => TermAckKeeps(s, c, mid);
    case PipeTermAck(p) => PipeTermAckKeeps(s, p, mid);
    case TermEp(t) => TermEpKeeps(s, t, mid);
  }

  lemma ProcessTermKeeps(s: Sock)
    requires SockInv(s) && !s.own.terminating
    ensures SockInv(ProcessTerm(s))
  {
    var s' := ProcessTerm(s);
    assert s.own.waiting !! s.own.owned;
    assert |s.own.waiting + s.own.owned| == |s.own.waiting| + |s.own.owned|;
    forall i | 0 <= i < |s'.mailbox| ensures CmdOk(s', s'.mailbox[i]) {
      assert CmdOk(s, s.mailbox[i]);
    }
  }

  /** What it means that a socket is destroyed: it is terminating, nothing is attached,
      no child is running down, and no bind or own command is queued or promised. */
  lemma DestroyedIffDone(s: Sock)
    requires SockInv(s)
    ensures s.own.destroyed <==>
              && s.own.terminating && s.pipes == [] && s.own.waiting == {} && s.own.promised == 0
              && forall i :: 0 <= i < |s.mailbox| ==> !s.mailbox[i].Bind? && !s.mailbox[i].Own?
  {
    assert |s.own.waiting| == 0 <==> s.own.waiting == {};
    CountedNone(s.mailbox);
  }

  lemma {:induction false} CountedNone(cmds: seq<Cmd>)
    ensures Counted(cmds) == 0 <==> forall i :: 0 <= i < |cmds| ==> !cmds[i].Bind? && !cmds[i].Own?
  {
    if cmds != [] {
      var tail := cmds[1..];
      CountedNone(tail);
      assert forall i :: 0 <= i < |tail| ==> tail[i] == cmds[i + 1];
      if forall i :: 0 <= i < |tail| ==> !tail[i].Bind? && !tail[i].Own? {
        forall i | 0 < i < |cmds| ensures !cmds[i].Bind? && !cmds[i].Own? {
          assert cmds[i] == tail[i - 1];
        }
      }
    }
  }
}
