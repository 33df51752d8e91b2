/** Sockets that connect to each other over inproc while any of them may be closing:
    the race that sequence numbers and late termination acks are there for. */
module Inproc {
  import opened Wrappers
  import opened SocketState
  import opened Endpoints
  import opened Mailbox
  import opened SocketCalls
  import opened ConnectRoundTrip

  /** Where a socket's thread is: outside, in the middle of process_commands, or in a
      call whose process_commands has just succeeded. */
  datatype Phase = Idle | Reading | Ready

  /** `closing`: zmq_close was called and the reaper has the socket. `connecting`: its
      thread is inside connect, between find_endpoint and send_bind. `reaped` counts
      deallocations. */
  datatype Member = Member(sock: Sock, closing: bool, phase: Phase, connecting: Option<nat>, reaped: nat)

  /** `registry` is the context's table of inproc endpoints; ids from `next` on are
      unused. */
  datatype World = World(members: seq<Member>, registry: map<Addr, nat>, next: nat)

  /** Each call of the API reads the mailbox first, one Recv after the other, while
      anything may go on elsewhere; the other actions of a thread are what the calls
      do then. */
  datatype Action =
    | Recv(u: nat, signal: bool)
    | Register(u: nat, addr: Addr)       // bind to an inproc address
    | Find(u: nat, addr: Addr)           // find_endpoint: the peer's seqnum is raised
    | SendBind(u: nat, addr: Addr)       // the pipe pair, send_bind, attach_pipe
    | Session(u: nat, addr: Addr, lookup: Lookup)
    | Listener(u: nat, addr: Addr, lookup: Lookup)
    | End(u: nat, target: Target)        // term_endpoint
    | Arrives(u: nat, cmd: Cmd)          // from an I/O thread, the context or a pipe
    | Close(u: nat)

  function Start(opts: seq<Options>): World {
    World(seq(|opts|, i requires 0 <= i < |opts| => Member(NewSock(opts[i]), false, Idle, None, 0)), map[], 1)
  }

  /** The thread is in a call that may go on to act. */
  predicate Callable(m: Member) {
    !m.closing && m.phase == Ready
  }

  ghost predicate Enabled(w: World, a: Action) {
    a.u < |w.members| && w.members[a.u].reaped == 0 &&
    var m := w.members[a.u];
    match a
    case Recv(_, _) => m.connecting.None?
    case Register(_, addr) => Callable(m) && addr !in w.registry
    case Find(_, addr) => Callable(m) && addr in w.registry && w.registry[addr] < |w.members|
    case SendBind(_, _) => m.connecting.Some? && m.connecting.value < |w.members|
    case Session(_, _, _) => Callable(m)
    case Listener(_, _, _) => Callable(m)
    case End(_, target) => Callable(m) && !target.Null?
    case Arrives(_, cmd) => PostOk(m.sock, cmd) && !cmd.Bind?
    case Close(_) => !m.closing && m.phase != Reading && m.connecting.None?
  }

  function SetSock(w: World, u: nat, s: Sock): World
    requires u < |w.members|
  {
    w.(members := w.members[u := w.members[u].(sock := s)])
  }

  /** find_endpoint increments the peer's sequence number under the registry's lock. */
  function Promise(s: Sock): Sock {
    s.(own := s.own.(sentSeqnum := s.own.sentSeqnum + 1, promised := s.own.promised + 1))
  }

  /** The promised bind of a new pipe pair goes out: u's thread is past that point. */
  function BindSent(w: World, u: nat, t: nat): World
    requires u < |w.members| && t < |w.members|
  {
    var w1 := SetSock(w, t, Post(w.members[t].sock, Bind(w.next)));
    w1.(members := w1.members[u := w1.members[u].(connecting := None)], next := w.next + 2)
  }

  /** The connecting end of an inproc connection. */
  function AttachInproc(s: Sock, addr: Addr, p: Pipe): Sock {
    AttachPipe(s, p).(inprocs := s.inprocs + [InprocEntry(addr, p)])
  }

  /** check_destroy: a socket in the reaper's hands goes as soon as it is destroyed. */
  function CheckDestroy(m: Member): Member {
    if m.closing && m.sock.own.destroyed then m.(reaped := m.reaped + 1) else m
  }

  /** Whether an inproc address is u's own is up to the registry. */
  function Looked(w: World, u: nat, t: Target): Target {
    if t.Inproc? then t.(unregistered := t.addr in w.registry && w.registry[t.addr] == u) else t
  }

  function Unregister(registry: map<Addr, nat>, t: Target): map<Addr, nat> {
    if t.Inproc? && t.unregistered then registry - {t.addr} else registry
  }

  /** The innermost pending term_endpoint acts, if its reading succeeded. */
  function Resume(w: World, u: nat, signal: bool): World
    requires u < |w.members| && w.members[u].sock.ending != [] && Fails(w.members[u].sock, signal)
  {
    var m, s := w.members[u], w.members[u].sock;
    var last := |s.ending| - 1;
    var t := Looked(w, u, s.ending[last]);
    World(w.members[u := m.(sock := OneRecv(s.(ending := s.ending[last := t]), signal), phase := Reading)],
          if signal || s.ctxTerminated then w.registry else Unregister(w.registry, t), w.next)
  }

  /** The outermost reading is over; the reaper then looks whether the socket is done. */
  function EndReading(m: Member, signal: bool): Member {
    CheckDestroy(m.(sock := Failing(m.sock, signal).0, phase := if signal || m.sock.ctxTerminated then Idle else Ready))
  }

  ghost function Step(w: World, a: Action): World {
    if !Enabled(w, a) then w else
      var m := w.members[a.u];
      match a
      case Recv(u, signal) =>
        if !Fails(m.sock, signal) then w.(members := w.members[u := m.(sock := TakeOne(m.sock), phase := Reading)])
        else if m.sock.ending != [] then Resume(w, u, signal)
        else w.(members := w.members[u := EndReading(m, signal)])
      case Register(u, addr) =>
        w.(members := w.members[u := m.(phase := Idle)], registry := w.registry[addr := u])
      case Find(u, addr) =>
        var t := w.registry[addr];
        var w1 := SetSock(w, t, Promise(w.members[t].sock));
        w1.(members := w1.members[u := w1.members[u].(connecting := Some(t), phase := Idle)])
      case SendBind(u, addr) =>
        var w1 := BindSent(w, u, m.connecting.value);
        SetSock(w1, u, AttachInproc(w1.members[u].sock, addr, w.next + 1))
      case Session(u, addr, lookup) =>
        w.(members := w.members[u := m.(sock := StartSession(m.sock, addr, lookup, w.next, w.next + 1).0, phase := Idle)],
           next := w.next + 2)
      case Listener(u, addr, lookup) =>
        w.(members := w.members[u := m.(sock := StartListener(m.sock, addr, lookup, w.next).0, phase := Idle)],
           next := w.next + 2)
      case End(u, target) =>
        var t := Looked(w, u, target);
        World(w.members[u := m.(sock := EndIt(m.sock, t).0, phase := Idle)], Unregister(w.registry, t), w.next)
      case Arrives(u, cmd) => SetSock(w, u, Post(m.sock, cmd))
      case Close(u) =>
        World(w.members[u := CheckDestroy(m.(closing := true, phase := Idle, sock := ProcessTerm(m.sock)))],
              map x | x in w.registry && w.registry[x] != u :: w.registry[x], w.next)
  }

  ghost function Run(w: World, acts: seq<Action>): World {
    if acts == [] then w else Step(Run(w, acts[..|acts| - 1]), acts[|acts| - 1])
  }

  // ---- ids

  ghost predicate CmdBelow(cmd: Cmd, n: nat) {
    match cmd
    case Bind(p) => p < n
    case Own(c) => c < n
    case PipeTermAck(p) => p < n
    case _ => true
  }

  ghost predicate KidsBelow(o: OwnPart, n: nat) {
    (forall c :: c in o.owned ==> c < n) && (forall c :: c in o.termSent ==> c < n)
  }

  /** No part of the socket mentions an id from n on. */
  ghost predicate Below(s: Sock, n: nat) {
    && (forall i :: 0 <= i < |s.pipes| ==> s.pipes[i] < n)
    && KidsBelow(s.own, n)
    && (forall i :: 0 <= i < |s.mailbox| ==> CmdBelow(s.mailbox[i], n))
  }

  lemma {:induction false} RemoveIn(pipes: seq<Pipe>, p: Pipe)
    ensures forall q :: q in Remove(pipes, p) ==> q in pipes
  {
    if pipes != [] && pipes[0] != p {
      RemoveIn(pipes[1..], p);
    }
  }

  lemma TakeOneBelow(s: Sock, n: nat)
    requires Below(s, n) && s.mailbox != []
    ensures Below(TakeOne(s), n)
  {
    var s', cmd := TakeOne(s), s.mailbox[0];
    assert CmdBelow(cmd, n);
    CommandFrame(s.(mailbox := s.mailbox[1..]), cmd);
    if cmd.PipeTermAck? {
      RemoveIn(s.pipes, cmd.pipe);
    }
    forall i | 0 <= i < |s'.pipes| ensures s'.pipes[i] < n {
      assert s'.pipes[i] in s.pipes || cmd == Bind(s'.pipes[i]);
    }
    forall c | c in s'.own.termSent ensures c < n {
      assert c in s.own.termSent || c in s.own.owned || cmd == Own(c);
    }
    forall c | c in s'.own.owned ensures c < n {
      assert c in s.own.owned || cmd == Own(c);
    }
  }

  lemma {:induction false} TermChildrenBelow(o: OwnPart, range: seq<Entry>, n: nat)
    requires KidsBelow(o, n)
    ensures KidsBelow(TermChildren(o, range), n)
  {
    if range != [] {
      TermChildrenBelow(o, range[..|range| - 1], n);
    }
  }

  lemma EndItBelow(s: Sock, t: Target, n: nat)
    requires Below(s, n) && !t.Null?
    ensures Below(EndIt(s, t).0, n)
  {
    if t.Known? || t.Tcp? {
      TermChildrenBelow(s.own, Matching(s.endpoints, Key(s.endpoints, t)), n);
    }
  }

  // ---- single sockets

  ghost predicate Good(s: Sock, n: nat) {
    SockInv(s) && Below(s, n)
  }

  lemma GoodLater(s: Sock, n: nat, n': nat)
    requires Good(s, n) && n <= n'
    ensures Good(s, n')
  {
  }

  lemma GoodSame(s: Sock, s': Sock, n: nat)
    requires Good(s, n) && s'.own == s.own && s'.pipes == s.pipes && s'.asked == s.asked
    requires s'.mailbox == s.mailbox && s'.endpoints == s.endpoints && s'.inprocs == s.inprocs
    ensures Good(s', n)
  {
    SameKeeps(s, s');
  }

  lemma EndItGood(s: Sock, t: Target, n: nat)
    requires Good(s, n) && !t.Null?
    ensures var s' := EndIt(s, t).0;
            && Good(s', n) && s'.own.terminating == s.own.terminating && s'.own.promised == s.own.promised
            && s'.own.destroyed == s.own.destroyed && s'.ending == s.ending && s'.mailbox == s.mailbox
  {
    EndItKeeps(s, t);
    EndItBelow(s, t, n);
    if t.Known? || t.Tcp? {
      TermChildrenFrame(s.own, Matching(s.endpoints, Key(s.endpoints, t)));
      NeverDestroys(s.own, Matching(s.endpoints, Key(s.endpoints, t)));
    }
  }

  lemma {:induction false} NeverDestroys(o: OwnPart, range: seq<Entry>)
    ensures TermChildren(o, range).destroyed == o.destroyed
  {
    if range != [] {
      NeverDestroys(o, range[..|range| - 1]);
    }
  }

  lemma TakeOneGood(s: Sock, n: nat)
    requires Good(s, n) && s.mailbox != []
    ensures Good(TakeOne(s), n)
    ensures TakeOne(s).own.terminating == s.own.terminating && TakeOne(s).own.promised == s.own.promised
  {
    CommandKeeps(s);
    TakeOneBelow(s, n);
    CommandFrame(s.(mailbox := s.mailbox[1..]), s.mailbox[0]);
  }

  /** One recv that resumes a term_endpoint. */
  lemma ResumeGood(s: Sock, t: Target, signal: bool, n: nat)
    requires Good(s, n) && s.ending != [] && Fails(s, signal)
    ensures var s' := OneRecv(s.(ending := s.ending[|s.ending| - 1 := t]), signal);
            Good(s', n) && s'.own.terminating == s.own.terminating && s'.own.promised == s.own.promised
  {
    var s0 := s.(ending := s.ending[|s.ending| - 1 := t]);
    var (s1, errno) := Failing(s0, signal);
    var s2 := s1.(ending := s1.ending[..|s1.ending| - 1]);
    GoodSame(s, s2, n);
    if !t.Null? {
      EndItGood(s2, t, n);
    }
  }

  lemma PostGood(s: Sock, cmd: Cmd, n: nat)
    requires Good(s, n) && PostOk(s, cmd) && CmdBelow(cmd, n)
    ensures Good(Post(s, cmd), n)
  {
    PostKeeps(s, cmd);
  }

  /** What is allowed to arrive, other than a bind, names nothing new. */
  lemma PostedBelow(s: Sock, cmd: Cmd, n: nat)
    requires Good(s, n) && PostOk(s, cmd) && !cmd.Bind?
    ensures CmdBelow(cmd, n)
  {
  }

  lemma PromiseGood(s: Sock, n: nat)
    requires Good(s, n) && !s.own.terminating
    ensures Good(Promise(s), n)
  {
    var s' := Promise(s);
    forall i | 0 <= i < |s'.mailbox| ensures CmdOk(s', s'.mailbox[i]) {
      assert CmdOk(s, s.mailbox[i]);
    }
  }

  lemma NewIdUnknown(s: Sock, n: nat, p: nat)
    requires Good(s, n) && p >= n
    ensures p !in s.pipes && p !in s.own.owned && p !in s.own.termSent
    ensures Bind(p) !in s.mailbox && Own(p) !in s.mailbox && PipeTermAck(p) !in s.mailbox
  {
    forall i | 0 <= i < |s.mailbox| ensures s.mailbox[i] != Bind(p) && s.mailbox[i] != Own(p) && s.mailbox[i] != PipeTermAck(p) {
      assert CmdBelow(s.mailbox[i], n);
    }
  }

  lemma PostBindGood(s: Sock, n: nat)
    requires Good(s, n) && s.own.promised > 0 && n > 0
    ensures Good(Post(s, Bind(n)), n + 2)
  {
    NewIdUnknown(s, n, n);
    GoodLater(s, n, n + 2);
    PostGood(s, Bind(n), n + 2);
  }

  lemma AttachGood(s: Sock, addr: Addr, n: nat, p: Pipe)
    requires Good(s, n) && !s.own.terminating && p != NULL && p < n
    requires p !in s.pipes && Bind(p) !in s.mailbox
    ensures Good(AttachInproc(s, addr, p), n)
  {
    var s' := AttachInproc(s, addr, p);
    forall i | 0 <= i < |s'.mailbox| ensures CmdOk(s', s'.mailbox[i]) {
      assert CmdOk(s, s.mailbox[i]);
      assert s'.mailbox[i] in s.mailbox;
    }
  }

  /** The invariant of a socket whose thread goes on after its reading. */
  lemma SessionGood(s: Sock, addr: Addr, lookup: Lookup, n: nat)
    requires Good(s, n) && !s.own.terminating && n > 0 && NoneComing(s)
    ensures var s' := StartSession(s, addr, lookup, n, n + 1).0;
            Good(s', n + 2) && !s'.own.terminating && s'.own.promised == s.own.promised && s'.ending == s.ending
  {
    NewIdUnknown(s, n, n);
    NewIdUnknown(s, n, n + 1);
    GoodLater(s, n, n + 2);
    AddKeeps(s, addr, n, NULL);
    AttachKeeps(s, n + 1);
    AddKeeps(AttachPipe(s, n + 1), addr, n, n + 1);
  }

  lemma ListenerGood(s: Sock, addr: Addr, lookup: Lookup, n: nat)
    requires Good(s, n) && !s.own.terminating && n > 0 && NoneComing(s)
    ensures var s' := StartListener(s, addr, lookup, n).0;
            Good(s', n + 2) && !s'.own.terminating && s'.own.promised == s.own.promised && s'.ending == s.ending
  {
    NewIdUnknown(s, n, n);
    GoodLater(s, n, n + 2);
    AddKeeps(s, addr, n, NULL);
  }

  lemma ProcessTermGood(s: Sock, n: nat)
    requires Good(s, n) && !s.own.terminating
    ensures Good(ProcessTerm(s), n) && ProcessTerm(s).own.terminating && ProcessTerm(s).own.promised == s.own.promised
  {
    ProcessTermKeeps(s);
  }

  // ---- the world

  /** How many connects are between find_endpoint and send_bind towards t. */
  function Promises(ms: seq<Member>, t: nat): nat {
    if ms == [] then 0 else
      Promises(ms[..|ms| - 1], t) + (if ms[|ms| - 1].connecting == Some(t) then 1 else 0)
  }

  lemma {:induction false} PromisesUpdate(ms: seq<Member>, u: nat, m: Member, t: nat)
    requires u < |ms|
    ensures Promises(ms[u := m], t) == Promises(ms, t)
              - (if ms[u].connecting == Some(t) then 1 else 0) + (if m.connecting == Some(t) then 1 else 0)
    ensures ms[u].connecting == Some(t) ==> Promises(ms, t) > 0
  {
    var last := |ms| - 1;
    if u == last {
      assert ms[u := m][..last] == ms[..last];
    } else {
      assert ms[u := m][..last] == ms[..last][u := m];
      PromisesUpdate(ms[..last], u, m, t);
    }
  }

  ghost predicate MemberOk(w: World, u: nat)
    requires u < |w.members|
  {
    var m := w.members[u];
    Good(m.sock, w.next) && m.sock.own.promised == Promises(w.members, u) && Placed(m)
  }

  /** What its thread's whereabouts say about a socket. */
  ghost predicate Placed(m: Member) {
    && m.closing == m.sock.own.terminating
    && (m.connecting.Some? ==> !m.closing && m.phase == Idle)
    && (m.phase != Reading ==> m.sock.ending == [])
    && (m.phase == Ready ==> NoneComing(m.sock))
    && m.reaped == (if m.sock.own.destroyed && m.phase != Reading then 1 else 0)
  }

  ghost predicate WorldInv(w: World) {
    && w.next > 0
    && (forall u :: 0 <= u < |w.members| ==> MemberOk(w, u))
    && RegistryOk(w)
  }

  ghost predicate RegistryOk(w: World) {
    forall x :: x in w.registry ==> w.registry[x] < |w.members| && !w.members[w.registry[x]].closing
  }

  /** Replacing one member by one with the same promises made and kept. */
  lemma ReplaceOk(w: World, w': World, u: nat, m: Member)
    requires WorldInv(w) && u < |w.members| && w'.members == w.members[u := m] && w.next <= w'.next
    requires RegistryOk(w')
    requires Good(m.sock, w'.next) && m.sock.own.promised == w.members[u].sock.own.promised
    requires m.connecting == w.members[u].connecting && Placed(m)
    ensures WorldInv(w')
  {
    assert MemberOk(w, u);
    forall v | 0 <= v < |w'.members| ensures MemberOk(w', v) {
      assert MemberOk(w, v);
      PromisesUpdate(w.members, u, m, v);
      if v != u {
        GoodLater(w.members[v].sock, w.next, w'.next);
      }
    }
  }

  lemma TakeKeepsWorld(w: World, u: nat)
    requires WorldInv(w) && u < |w.members| && w.members[u].sock.mailbox != []
    requires w.members[u].connecting.None? && w.members[u].reaped == 0
    ensures var m := w.members[u]; WorldInv(w.(members := w.members[u := m.(sock := TakeOne(m.sock), phase := Reading)]))
  {
    var m := w.members[u];
    assert MemberOk(w, u);
    TakeOneGood(m.sock, w.next);
    var m' := m.(sock := TakeOne(m.sock), phase := Reading);
    ReplaceOk(w, w.(members := w.members[u := m']), u, m');
  }

  lemma ResumeKeepsWorld(w: World, u: nat, signal: bool)
    requires WorldInv(w) && u < |w.members| && w.members[u].sock.ending != [] && Fails(w.members[u].sock, signal)
    requires w.members[u].connecting.None? && w.members[u].reaped == 0
    ensures WorldInv(Resume(w, u, signal))
  {
    var m, s, w' := w.members[u], w.members[u].sock, Resume(w, u, signal);
    assert MemberOk(w, u);
    var s' := w'.members[u].sock;
    ResumeGood(s, Looked(w, u, s.ending[|s.ending| - 1]), signal, w.next);
    InReading(m, s');
    ReplaceOk(w, w', u, m.(sock := s', phase := Reading));
  }

  lemma InReading(m: Member, s': Sock)
    requires Placed(m) && m.connecting.None? && m.reaped == 0 && s'.own.terminating == m.sock.own.terminating
    ensures Placed(m.(sock := s', phase := Reading))
  {
  }

  lemma EndReadingKeepsWorld(w: World, u: nat, signal: bool)
    requires WorldInv(w) && u < |w.members| && w.members[u].sock.ending == [] && Fails(w.members[u].sock, signal)
    requires w.members[u].connecting.None? && w.members[u].reaped == 0
    ensures WorldInv(w.(members := w.members[u := EndReading(w.members[u], signal)]))
  {
    var m := w.members[u];
    assert MemberOk(w, u);
    GoodSame(m.sock, Failing(m.sock, signal).0, w.next);
    ReplaceOk(w, w.(members := w.members[u := EndReading(m, signal)]), u, EndReading(m, signal));
  }

  lemma RecvKeepsWorld(w: World, u: nat, signal: bool)
    requires WorldInv(w) && Enabled(w, Recv(u, signal))
    ensures WorldInv(Step(w, Recv(u, signal)))
  {
    if !Fails(w.members[u].sock, signal) {
      TakeKeepsWorld(w, u);
    } else if w.members[u].sock.ending != [] {
      ResumeKeepsWorld(w, u, signal);
    } else {
      EndReadingKeepsWorld(w, u, signal);
    }
  }

  /** What a call makes of its socket once its reading has succeeded. */
  lemma ActKeepsWorld(w: World, w': World, u: nat, s': Sock)
    requires WorldInv(w) && u < |w.members| && Callable(w.members[u]) && w.members[u].reaped == 0
    requires w'.members == w.members[u := w.members[u].(sock := s', phase := Idle)] && w.next <= w'.next
    requires RegistryOk(w')
    requires Good(s', w'.next) && !s'.own.terminating && s'.ending == [] && s'.own.promised == w.members[u].sock.own.promised
    ensures WorldInv(w')
  {
    assert MemberOk(w, u);
    StillAlive(s', w'.next);
    ReplaceOk(w, w', u, w'.members[u]);
  }

  lemma CallKeepsWorld(w: World, a: Action)
    requires WorldInv(w) && Enabled(w, a)
    requires a.Session? || a.Listener? || a.End?
    ensures WorldInv(Step(w, a))
  {
    var s, w' := w.members[a.u].sock, Step(w, a);
    assert MemberOk(w, a.u);
    match a
    case Session(u, addr, lookup) =>
      SessionGood(s, addr, lookup, w.next);
      ActKeepsWorld(w, w', u, StartSession(s, addr, lookup, w.next, w.next + 1).0);
    case Listener(u, addr, lookup) =>
      ListenerGood(s, addr, lookup, w.next);
      ActKeepsWorld(w, w', u, StartListener(s, addr, lookup, w.next).0);
    case End(u, target) =>
      EndItGood(s, Looked(w, u, target), w.next);
      ActKeepsWorld(w, w', u, EndIt(s, Looked(w, u, target)).0);
  }

  lemma RegisterKeepsWorld(w: World, u: nat, addr: Addr)
    requires WorldInv(w) && Enabled(w, Register(u, addr))
    ensures WorldInv(Step(w, Register(u, addr)))
  {
    assert MemberOk(w, u);
    ReplaceOk(w, Step(w, Register(u, addr)), u, w.members[u].(phase := Idle));
  }

  lemma StillAlive(s: Sock, n: nat)
    requires Good(s, n) && !s.own.terminating
    ensures !s.own.destroyed
  {
  }

  lemma ArrivesKeepsWorld(w: World, u: nat, cmd: Cmd)
    requires WorldInv(w) && Enabled(w, Arrives(u, cmd))
    ensures WorldInv(Step(w, Arrives(u, cmd)))
  {
    var m, w' := w.members[u], Step(w, Arrives(u, cmd));
    assert MemberOk(w, u);
    PostedBelow(m.sock, cmd, w.next);
    PostGood(m.sock, cmd, w.next);
    ReplaceOk(w, w', u, w'.members[u]);
  }

  /** A member that a step leaves alone. */
  lemma MemberStays(w: World, w': World, v: nat)
    requires v < |w.members| == |w'.members| && w.next <= w'.next && MemberOk(w, v)
    requires w'.members[v] == w.members[v] && Promises(w'.members, v) == Promises(w.members, v)
    ensures MemberOk(w', v)
  {
    GoodLater(w.members[v].sock, w.next, w'.next);
  }

  /** The step of t and u together: t's promise count follows u's connect. */
  lemma PairKeepsWorld(w: World, w': World, u: nat, mu: Member, t: nat, mt: Member)
    requires WorldInv(w) && u < |w.members| && t < |w.members| && w.next <= w'.next && w'.registry == w.registry
    requires w'.members == w.members[t := mt][u := mu] && (u == t ==> mt.sock == mu.sock)
    requires mt.connecting == w.members[t].connecting
    requires w.members[u].connecting.None? != mu.connecting.None?
    requires w.members[u].connecting.Some? ==> w.members[u].connecting.value == t
    requires mu.connecting.Some? ==> mu.connecting.value == t
    requires mt.sock.own.promised + (if mu.connecting.None? then 1 else 0)
          == w.members[t].sock.own.promised + (if mu.connecting.Some? then 1 else 0)
    requires u != t ==> mu.sock.own.promised == w.members[u].sock.own.promised
    requires Good(mt.sock, w'.next) && Good(mu.sock, w'.next)
    requires (u != t ==> Placed(mt)) && Placed(mu)
    requires mt.closing == w.members[t].closing && mu.closing == w.members[u].closing
    ensures WorldInv(w')
  {
    var ms1 := w.members[t := mt];
    assert MemberOk(w, u) && MemberOk(w, t);
    forall v | 0 <= v < |w'.members| ensures MemberOk(w', v) {
      PromisesUpdate(w.members, t, mt, v);
      PromisesUpdate(ms1, u, mu, v);
      if v != u && v != t {
        MemberStays(w, w', v);
      }
    }
  }

  lemma FindKeepsWorld(w: World, u: nat, addr: Addr)
    requires WorldInv(w) && Enabled(w, Find(u, addr))
    ensures WorldInv(Step(w, Find(u, addr)))
  {
    var t := w.registry[addr];
    assert MemberOk(w, t) && MemberOk(w, u);
    PromiseGood(w.members[t].sock, w.next);
    var mt := w.members[t].(sock := Promise(w.members[t].sock));
    PairKeepsWorld(w, Step(w, Find(u, addr)), u, w.members[t := mt][u].(connecting := Some(t), phase := Idle), t, mt);
  }

  lemma BindSentKeepsWorld(w: World, u: nat, t: nat)
    requires WorldInv(w) && u < |w.members| && t < |w.members| && w.members[u].connecting == Some(t)
    ensures WorldInv(BindSent(w, u, t)) && !BindSent(w, u, t).members[u].closing && BindSent(w, u, t).members[u].phase == Idle
  {
    var w', n := BindSent(w, u, t), w.next;
    assert MemberOk(w, t) && MemberOk(w, u);
    PromisesUpdate(w.members, u, w.members[u], t);
    PostBindGood(w.members[t].sock, n);
    GoodLater(w.members[u].sock, n, n + 2);
    var mt := w.members[t].(sock := Post(w.members[t].sock, Bind(n)));
    PairKeepsWorld(w, w', u, w'.members[u], t, mt);
  }

  lemma SendBindKeepsWorld(w: World, u: nat, addr: Addr)
    requires WorldInv(w) && Enabled(w, SendBind(u, addr))
    ensures WorldInv(Step(w, SendBind(u, addr)))
  {
    var t := w.members[u].connecting.value;
    BindSentKeepsWorld(w, u, t);
    assert MemberOk(w, u);
    AttachKeepsWorld(BindSent(w, u, t), Step(w, SendBind(u, addr)), u, addr, w.next + 1, w.members[u].sock);
  }

  lemma AttachKeepsWorld(w: World, w': World, u: nat, addr: Addr, p: Pipe, s: Sock)
    requires WorldInv(w) && u < |w.members| && !w.members[u].closing && 0 < p < w.next && w.members[u].phase == Idle
    requires Good(s, p - 1) && w.members[u].sock.pipes == s.pipes
    requires w.members[u].sock.mailbox == s.mailbox || w.members[u].sock.mailbox == s.mailbox + [Bind(p - 1)]
    requires w' == SetSock(w, u, AttachInproc(w.members[u].sock, addr, p))
    ensures WorldInv(w')
  {
    assert MemberOk(w, u);
    NewIdUnknown(s, p - 1, p);
    AttachGood(w.members[u].sock, addr, w.next, p);
    ReplaceOk(w, w', u, w'.members[u]);
  }

  lemma CloseKeepsWorld(w: World, u: nat)
    requires WorldInv(w) && Enabled(w, Close(u))
    ensures WorldInv(Step(w, Close(u)))
  {
    var m, w' := w.members[u], Step(w, Close(u));
    assert MemberOk(w, u);
    ProcessTermGood(m.sock, w.next);
    forall v | 0 <= v < |w'.members| ensures MemberOk(w', v) {
      assert MemberOk(w, v);
      PromisesUpdate(w.members, u, w'.members[u], v);
    }
  }

  lemma StepKeepsWorld(w: World, a: Action)
    requires WorldInv(w)
    ensures WorldInv(Step(w, a))
  {
    if Enabled(w, a) {
      match a
      case Recv(u, signal) => RecvKeepsWorld(w, u, signal);
      case Find(u, addr) => FindKeepsWorld(w, u, addr);
      case SendBind(u, addr) => SendBindKeepsWorld(w, u, addr);
      case Arrives(u, cmd) => ArrivesKeepsWorld(w, u, cmd);
      case Close(u) => CloseKeepsWorld(w, u);
      case Register(u, addr) => RegisterKeepsWorld(w, u, addr);
      case _ => CallKeepsWorld(w, a);
    }
  }

  lemma NoPromises(opts: seq<Options>, t: nat, k: nat)
    requires k <= |opts|
    ensures Promises(Start(opts).members[..k], t) == 0
  {
    if k > 0 {
      NoPromises(opts, t, k - 1);
      assert Start(opts).members[..k][..k - 1] == Start(opts).members[..k - 1];
    }
  }

  lemma {:induction false} WorldReachable(opts: seq<Options>, acts: seq<Action>)
    ensures WorldInv(Run(Start(opts), acts))
  {
    if acts == [] {
      forall u | 0 <= u < |opts| ensures MemberOk(Start(opts), u) {
        NoPromises(opts, u, |opts|);
        assert Start(opts).members[..|opts|] == Start(opts).members;
      }
    } else {
      WorldReachable(opts, acts[..|acts| - 1]);
      StepKeepsWorld(Run(Start(opts), acts[..|acts| - 1]), acts[|acts| - 1]);
    }
  }

  // ---- the theorems

  /** Accounting, in every reachable state and under every interleaving: outstanding
      acks are the children told to terminate that have not answered, plus -- once the
      socket is terminating -- its attached pipes, every one of which has been asked,
      including those bound after termination began. */
  lemma AcksAccounted(opts: seq<Options>, acts: seq<Action>, w: World, u: nat)
    requires w == Run(Start(opts), acts) && u < |w.members|
    ensures var s := w.members[u].sock;
            && s.own.termAcks == |s.own.waiting| + (if s.own.terminating then |s.pipes| else 0)
            && (s.own.terminating ==> forall p :: p in s.pipes ==> p in s.asked)
            && s.own.sentSeqnum == s.own.processedSeqnum + Counted(s.mailbox) + Promises(w.members, u)
  {
    WorldReachable(opts, acts);
    assert MemberOk(w, u);
  }

  /** Nothing of the socket is left to wait for or to be reached by. */
  ghost predicate Unreferenced(w: World, u: nat)
    requires u < |w.members|
  {
    var s := w.members[u].sock;
    && s.pipes == [] && s.own.waiting == {}
    && (forall i :: 0 <= i < |s.mailbox| ==> !s.mailbox[i].Bind? && !s.mailbox[i].Own?)
    && (forall v :: 0 <= v < |w.members| ==> w.members[v].connecting != Some(u))
  }

  /** A closed socket is deallocated exactly once, and exactly when -- the reaper's reading
      of its mailbox being over -- no pipe is attached, no child is running down, no bind
      for it is queued, and no thread is between looking it up and binding to it; from
      then on nobody can look it up. */
  lemma ReapedIffUnreferenced(opts: seq<Options>, acts: seq<Action>, w: World, u: nat)
    requires w == Run(Start(opts), acts) && u < |w.members|
    ensures var m := w.members[u];
            && m.reaped == (if m.closing && m.phase != Reading && Unreferenced(w, u) then 1 else 0)
            && (m.closing ==> forall x :: x in w.registry ==> w.registry[x] != u)
  {
    WorldReachable(opts, acts);
    assert MemberOk(w, u);
    DestroyedIffDone(w.members[u].sock);
    NoneConnecting(w.members, u);
  }

  lemma {:induction false} NoneConnecting(ms: seq<Member>, t: nat)
    ensures Promises(ms, t) == 0 <==> forall v :: 0 <= v < |ms| ==> ms[v].connecting != Some(t)
  {
    if ms != [] {
      NoneConnecting(ms[..|ms| - 1], t);
    }
  }
}
