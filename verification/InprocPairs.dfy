/** Inproc connections end to end: the pair that a connect makes, the list by which it is
    ended, and the reading by which the peer gets its end. */
module InprocPairs {
  import opened Wrappers
  import opened SocketState
  import opened Endpoints
  import opened Mailbox
  import opened SocketCalls
  import opened Inproc
  import opened Attachment
  import opened Reaping
  import opened Registry

  // ---- the connect

  /** The connecting socket gets one end, attached and listed for the address. */
  ghost predicate Connected(s: Sock, addr: Addr, p: Pipe, s': Sock) {
    && s'.pipes == s.pipes + [p] && s'.inprocs == s.inprocs + [InprocEntry(addr, p)]
    && s'.endpoints == s.endpoints && s'.ending == s.ending
  }

  /** The peer's end is on its way, the promise redeemed. */
  ghost predicate BindQueued(s: Sock, p: Pipe, s': Sock) {
    && s'.mailbox == s.mailbox + [Bind(p)] && s.own == s'.own.(promised := s'.own.promised + 1)
  }

  /** A connect to another socket: one end each, of a new pair; nobody else is touched. */
  lemma SendBindExact(w: World, u: nat, addr: Addr)
    requires WorldInv(w) && Enabled(w, SendBind(u, addr)) && w.members[u].connecting != Some(u)
    ensures var w', t, p := Step(w, SendBind(u, addr)), w.members[u].connecting.value, w.next + 1;
            && |w'.members| == |w.members| && w'.registry == w.registry && w'.next == w.next + 2
            && Connected(w.members[u].sock, addr, p, w'.members[u].sock)
            && w'.members[u].sock.own == w.members[u].sock.own && w'.members[u].sock.mailbox == w.members[u].sock.mailbox
            && BindQueued(w.members[t].sock, w.next, w'.members[t].sock)
            && w'.members[t] == w.members[t].(sock := w'.members[t].sock) && w'.members[t].sock.pipes == w.members[t].sock.pipes
            && (forall v :: 0 <= v < |w.members| && v != u && v != t ==> w'.members[v] == w.members[v])
  {
    assert MemberOk(w, u) && MemberOk(w, w.members[u].connecting.value);
    PromisesUpdate(w.members, u, w.members[u], w.members[u].connecting.value);
  }

  /** A socket may connect to itself: it then has one end and the other one queued. */
  lemma SelfConnectExact(w: World, u: nat, addr: Addr)
    requires WorldInv(w) && Enabled(w, SendBind(u, addr)) && w.members[u].connecting == Some(u)
    ensures var s, s' := w.members[u].sock, Step(w, SendBind(u, addr)).members[u].sock;
            Connected(s, addr, w.next + 1, s') && BindQueued(s, w.next, s')
  {
    assert MemberOk(w, u);
    PromisesUpdate(w.members, u, w.members[u], u);
  }

  // ---- the list

  /** The step takes the entry off u's list: its pipe's ack is read, or u ends the address
      and has not bound to it. */
  ghost predicate Unlists(w: World, a: Action, v: nat, e: InprocEntry)
    requires Enabled(w, a) && v < |w.members|
  {
    v == a.u && (
    || (a.Recv? && !Fails(w.members[v].sock, a.signal) && w.members[v].sock.mailbox[0] == PipeTermAck(e.pipe))
    || (ActsOn(w, a, e.addr) && !(e.addr in w.registry && w.registry[e.addr] == v)))
  }

  lemma CallInprocs(s: Sock, t: Target)
    requires !t.Null?
    ensures forall e :: e in EndIt(s, t).0.inprocs <==> e in s.inprocs && !(t.Inproc? && !t.unregistered && t.addr == e.addr)
  {
    if t.Inproc? && !t.unregistered {
      InprocsIn(s.inprocs, t.addr);
      forall e | e in s.inprocs && InprocPipes(s.inprocs, t.addr) == [] ensures e.addr != t.addr {
        assert e.pipe !in InprocPipes(s.inprocs, t.addr);
      }
    }
  }

  lemma TakeInprocs(s: Sock, e: InprocEntry)
    requires SockInv(s) && s.mailbox != []
    ensures e in TakeOne(s).inprocs <==> e in s.inprocs && s.mailbox[0] != PipeTermAck(e.pipe)
  {
    if s.mailbox[0].PipeTermAck? {
      RemoveInprocOne(s.inprocs, s.mailbox[0].pipe);
    }
  }

  lemma ResumeInprocs(s: Sock, t: Target, e: InprocEntry)
    requires s.ending != [] && s.mailbox == []
    ensures e in OneRecv(s.(ending := s.ending[|s.ending| - 1 := t]), false).inprocs
       <==> e in s.inprocs && (s.ctxTerminated || !(t.Inproc? && !t.unregistered && t.addr == e.addr))
  {
    if !t.Null? {
      CallInprocs(s.(ending := s.ending[..|s.ending| - 1], undrained := 0), t);
    }
    assert s.ending[|s.ending| - 1 := t][..|s.ending| - 1] == s.ending[..|s.ending| - 1];
  }

  lemma RecvInprocs(w: World, u: nat, signal: bool, e: InprocEntry)
    requires WorldInv(w) && Enabled(w, Recv(u, signal))
    ensures e in Step(w, Recv(u, signal)).members[u].sock.inprocs
       <==> e in w.members[u].sock.inprocs && !Unlists(w, Recv(u, signal), u, e)
  {
    var s := w.members[u].sock;
    if !Fails(s, signal) {
      assert MemberOk(w, u);
      TakeInprocs(s, e);
    } else if s.ending != [] && !signal {
      ResumeInprocs(s, Looked(w, u, s.ending[|s.ending| - 1]), e);
    }
  }

  lemma ConnectInprocs(w: World, u: nat, addr: Addr, v: nat, e: InprocEntry)
    requires WorldInv(w) && Enabled(w, SendBind(u, addr)) && v < |w.members|
    ensures v < |Step(w, SendBind(u, addr)).members|
    ensures e in Step(w, SendBind(u, addr)).members[v].sock.inprocs
       <==> (u == v && e == InprocEntry(addr, w.next + 1)) || e in w.members[v].sock.inprocs
  {
  }

  /** A connection is listed from its connect until its pipe is gone or it is ended. */
  lemma InprocsExact(w: World, a: Action, v: nat, e: InprocEntry)
    requires WorldInv(w) && Enabled(w, a) && v < |w.members|
    ensures v < |Step(w, a).members|
    ensures e in Step(w, a).members[v].sock.inprocs
       <==> (a == SendBind(v, e.addr) && e.pipe == w.next + 1) || (e in w.members[v].sock.inprocs && !Unlists(w, a, v, e))
  {
    if a.SendBind? {
      ConnectInprocs(w, a.u, a.addr, v, e);
    } else if a.Recv? && a.u == v {
      RecvInprocs(w, v, a.signal, e);
    } else if a.End? && a.u == v {
      CallInprocs(w.members[v].sock, Looked(w, v, a.target));
    }
  }

  /** Over any run: it stays listed as long as no step takes it off. */
  lemma {:induction false} StaysListed(w: World, acts: seq<Action>, v: nat, e: InprocEntry)
    requires WorldInv(w) && v < |w.members| && e in w.members[v].sock.inprocs
    requires forall i :: 0 <= i < |acts| ==> !UnlistsAt(w, acts, i, v, e)
    ensures WorldInv(Run(w, acts)) && v < |Run(w, acts).members| && e in Run(w, acts).members[v].sock.inprocs
  {
    if acts != [] {
      var pre, a := acts[..|acts| - 1], acts[|acts| - 1];
      forall i | 0 <= i < |pre| ensures !UnlistsAt(w, pre, i, v, e) {
        assert acts[..i] == pre[..i] && acts[i] == pre[i] && !UnlistsAt(w, acts, i, v, e);
      }
      StaysListed(w, pre, v, e);
      assert !UnlistsAt(w, acts, |pre|, v, e);
      StepKeepsWorld(Run(w, pre), a);
      if Enabled(Run(w, pre), a) {
        InprocsExact(Run(w, pre), a, v, e);
      }
    }
  }

  ghost predicate UnlistsAt(w: World, acts: seq<Action>, i: nat, v: nat, e: InprocEntry)
    requires i < |acts|
  {
    var mid := Run(w, acts[..i]);
    Enabled(mid, acts[i]) && v < |mid.members| && Unlists(mid, acts[i], v, e)
  }

  // ---- ending it

  lemma ListedIsAsked(w: World, u: nat, e: InprocEntry, flag: bool)
    requires WorldInv(w) && Enabled(w, End(u, Inproc(e.addr, flag)))
    requires e in w.members[u].sock.inprocs && !(e.addr in w.registry && w.registry[e.addr] == u)
    ensures var s, s' := w.members[u].sock, Step(w, End(u, Inproc(e.addr, flag))).members[u].sock;
            s.asked <= s'.asked && e.pipe in s'.asked[|s.asked|..] && e.pipe in s.pipes && e !in s'.inprocs
  {
    var s, t := w.members[u].sock, Looked(w, u, Inproc(e.addr, flag));
    assert MemberOk(w, u);
    EndItExact(s, t);
  }

  /** A connect and its term_endpoint: whatever goes on in between, as long as the pipe is
      not gone and nobody has ended the connection, ending an address that is not bound
      here asks the pipe that the connect made. */
  lemma ConnectedIsAsked(w: World, u: nat, addr: Addr, acts: seq<Action>, w': World, flag: bool)
    requires WorldInv(w) && Enabled(w, SendBind(u, addr)) && w' == Run(Step(w, SendBind(u, addr)), acts)
    requires var w1, e := Step(w, SendBind(u, addr)), InprocEntry(addr, w.next + 1);
             forall i :: 0 <= i < |acts| ==> !UnlistsAt(w1, acts, i, u, e)
    requires Enabled(w', End(u, Inproc(addr, flag))) && !(addr in w'.registry && w'.registry[addr] == u)
    ensures var s, s' := w'.members[u].sock, Step(w', End(u, Inproc(addr, flag))).members[u].sock;
            s.asked <= s'.asked && w.next + 1 in s'.asked[|s.asked|..] && w.next + 1 in s.pipes
  {
    var w1, e := Step(w, SendBind(u, addr)), InprocEntry(addr, w.next + 1);
    StepKeepsWorld(w, SendBind(u, addr));
    InprocsExact(w, SendBind(u, addr), u, e);
    StaysListed(w1, acts, u, e);
    ListedIsAsked(w', u, e, flag);
  }

  // ---- both ends

  /** Only u's thread moves, and it does not close. */
  ghost predicate OnlyReads(w: World, u: nat, w': World) {
    && |w'.members| == |w.members| && w'.next == w.next
    && (forall v :: 0 <= v < |w.members| && v != u ==> w'.members[v] == w.members[v])
    && (forall x :: x in w.registry && w.registry[x] != u ==> x in w'.registry && w'.registry[x] == w.registry[x])
  }

  lemma RecvOnlyReads(w: World, u: nat)
    requires Enabled(w, Recv(u, false))
    ensures OnlyReads(w, u, Step(w, Recv(u, false)))
  {
    forall x | x in w.registry && w.registry[x] != u
      ensures x in Step(w, Recv(u, false)).registry && Step(w, Recv(u, false)).registry[x] == w.registry[x]
    {
      RegistryExact(w, Recv(u, false), x);
    }
  }

  /** A bind that is queued is read, and attaches the pipe. */
  lemma {:induction false} BindIsRead(w: World, t: nat, p: Pipe) returns (acts: seq<Action>, w': World)
    requires WorldInv(w) && t < |w.members| && w.members[t].connecting.None? && w.members[t].reaped == 0
    requires p in w.members[t].sock.pipes || Bind(p) in w.members[t].sock.mailbox
    requires PipeTermAck(p) !in w.members[t].sock.mailbox
    ensures Goes(w, acts, w') && OnlyReads(w, t, w') && p in w'.members[t].sock.pipes
    decreases |w.members[t].sock.mailbox|
  {
    acts, w' := [], w;
    var s := w.members[t].sock;
    if p !in s.pipes {
      RecvOnlyReads(w, t);
      GoesOne(w, Recv(t, false));
      var mid := Step(w, Recv(t, false));
      var more;
      assert s.mailbox == [s.mailbox[0]] + s.mailbox[1..];
      more, w' := BindIsRead(mid, t, p);
      GoesOn(w, [Recv(t, false)], mid, more, w');
      acts := [Recv(t, false)] + more;
    }
  }

  /** A thread that may call, once its reading is over. */
  ghost predicate CanRead(w: World, u: nat) {
    u < |w.members| && !w.members[u].closing && w.members[u].connecting.None?
    && !w.members[u].sock.ctxTerminated && Stop !in w.members[u].sock.mailbox
  }

  lemma RecvGetsOn(w: World, u: nat)
    requires WorldInv(w) && CanRead(w, u)
    ensures Enabled(w, Recv(u, false))
    ensures var w', s := Step(w, Recv(u, false)), w.members[u].sock;
            && CanRead(w', u)
            && if Fails(s, false) && s.ending == [] then Callable(w'.members[u])
               else 2 * |w'.members[u].sock.mailbox| + |w'.members[u].sock.ending| < 2 * |s.mailbox| + |s.ending|
  {
    assert MemberOk(w, u);
    var s := w.members[u].sock;
    if !Fails(s, false) {
      CommandFrame(s.(mailbox := s.mailbox[1..]), s.mailbox[0]);
    } else if s.ending != [] {
      var t := Looked(w, u, s.ending[|s.ending| - 1]);
      OneRecvFrame(s.(ending := s.ending[|s.ending| - 1 := t]), false);
    }
  }

  /** Without a stop, the reading that a call begins with can always be finished, and the
      call can act. */
  lemma {:induction false} BecomesCallable(w: World, u: nat) returns (acts: seq<Action>, w': World)
    requires WorldInv(w) && CanRead(w, u)
    ensures Goes(w, acts, w') && OnlyReads(w, u, w') && Callable(w'.members[u]) && CanRead(w', u)
    decreases 2 * |w.members[u].sock.mailbox| + |w.members[u].sock.ending|
  {
    RecvGetsOn(w, u);
    RecvOnlyReads(w, u);
    GoesOne(w, Recv(u, false));
    acts, w' := [Recv(u, false)], Step(w, Recv(u, false));
    var s := w.members[u].sock;
    if !(Fails(s, false) && s.ending == []) {
      var mid, more := w', [];
      more, w' := BecomesCallable(mid, u);
      GoesOn(w, acts, mid, more, w');
      acts := acts + more;
    }
  }

  /** u has its end of a new pair, listed, and t's end is on its way or there. */
  ghost predicate Paired(w: World, u: nat, t: nat, addr: Addr, p: Pipe) {
    && WorldInv(w) && u < |w.members| && t < |w.members| && u != t
    && p + 1 in w.members[u].sock.pipes && InprocEntry(addr, p + 1) in w.members[u].sock.inprocs
    && w.members[t].connecting.None? && w.members[t].reaped == 0
    && (p in w.members[t].sock.pipes || Bind(p) in w.members[t].sock.mailbox)
    && PipeTermAck(p) !in w.members[t].sock.mailbox
  }

  lemma BindPairs(w: World, u: nat, addr: Addr)
    requires WorldInv(w) && Enabled(w, SendBind(u, addr))
    requires var t := w.members[u].connecting.value;
             t != u && t < |w.members| && w.members[t].connecting.None? && w.members[t].reaped == 0
    ensures Paired(Step(w, SendBind(u, addr)), u, w.members[u].connecting.value, addr, w.next)
  {
    var t, p := w.members[u].connecting.value, w.next;
    StepKeepsWorld(w, SendBind(u, addr));
    SendBindExact(w, u, addr);
    assert MemberOk(w, t);
    NewIdUnknown(w.members[t].sock, p, p);
  }

  /** The connect itself. */
  lemma FindAndBind(w: World, u: nat, addr: Addr) returns (acts: seq<Action>, w': World)
    requires WorldInv(w) && Enabled(w, Find(u, addr)) && w.registry[addr] != u
    requires w.members[w.registry[addr]].connecting.None?
    ensures Goes(w, acts, w') && Paired(w', u, w.registry[addr], addr, w.next)
  {
    var t := w.registry[addr];
    assert MemberOk(w, u) && MemberOk(w, t);
    GoesOne(w, Find(u, addr));
    var mid := Step(w, Find(u, addr));
    GoesOne(mid, SendBind(u, addr));
    BindPairs(mid, u, addr);
    w' := Step(mid, SendBind(u, addr));
    GoesOn(w, [Find(u, addr)], mid, [SendBind(u, addr)], w');
    acts := [Find(u, addr)] + [SendBind(u, addr)];
  }

  lemma PairsFrom(w: World, u: nat, addr: Addr, t: nat) returns (acts: seq<Action>, w': World, p: Pipe)
    requires WorldInv(w) && CanRead(w, u)
    requires addr in w.registry && w.registry[addr] == t && t != u && t < |w.members| && w.members[t].connecting.None?
    ensures Goes(w, acts, w') && Paired(w', u, t, addr, p)
  {
    var mid, more;
    acts, mid := BecomesCallable(w, u);
    assert MemberOk(mid, u);
    p := mid.next;
    more, w' := FindAndBind(mid, u, addr);
    GoesOn(w, acts, mid, more, w');
    acts := acts + more;
  }

  /** Each has its end, and the connection is listed. */
  ghost predicate Met(w: World, u: nat, t: nat, addr: Addr, p: Pipe) {
    && u < |w.members| && t < |w.members|
    && p + 1 in w.members[u].sock.pipes && InprocEntry(addr, p + 1) in w.members[u].sock.inprocs
    && p in w.members[t].sock.pipes
  }

  lemma PairMeets(w: World, u: nat, addr: Addr, t: nat, p: Pipe) returns (acts: seq<Action>, w': World)
    requires Paired(w, u, t, addr, p)
    ensures Goes(w, acts, w') && Met(w', u, t, addr, p)
  {
    acts, w' := BindIsRead(w, t, p);
  }

  /** Two sockets meet: from every reachable state, a thread that may call, and an address
      that another socket is bound to, some continuation has each of them attached to its
      end of a new pair, the connecting one with the connection listed. */
  lemma CanConnect(opts: seq<Options>, acts: seq<Action>, w: World, u: nat, addr: Addr, t: nat)
    returns (more: seq<Action>, p: Pipe)
    requires w == Inproc.Run(Start(opts), acts) && CanRead(w, u)
    requires addr in w.registry && w.registry[addr] == t && t != u && t < |w.members| && w.members[t].connecting.None?
    ensures Met(Inproc.Run(w, more), u, t, addr, p)
  {
    WorldReachable(opts, acts);
    var mid, rest, w';
    more, mid, p := PairsFrom(w, u, addr, t);
    rest, w' := PairMeets(mid, u, addr, t, p);
    GoesOn(w, more, mid, rest, w');
    more := more + rest;
  }

  // ---- when calls act

  /** A call's own action is its last: its thread is outside again, and of the other
      sockets nothing changes. */
  ghost predicate OneCall(w: World, u: nat, w': World)
    requires u < |w.members|
  {
    && |w'.members| == |w.members| && w'.members[u] == w.members[u].(sock := w'.members[u].sock, phase := Idle)
    && forall v :: 0 <= v < |w.members| && v != u ==> w'.members[v] == w.members[v]
  }

  /** In the world too, connect and bind make their entry under new pointers or change
      nothing, and term_endpoint ends what it is given exactly. */
  lemma CallsExact(w: World, a: Action)
    requires WorldInv(w) && Enabled(w, a) && (a.Session? || a.Listener? || a.End?)
    ensures var w', s := Step(w, a), w.members[a.u].sock;
            OneCall(w, a.u, w') &&
            var s' := w'.members[a.u].sock;
            match a
            case Session(u, addr, lookup) =>
              && w'.registry == w.registry
              && if lookup == Usable && !Already(s, addr)
                 then GainsEntry(s, Entry(addr, w.next, if s.opts.immediate then NULL else w.next + 1), s') else s' == s
            case Listener(u, addr, lookup) =>
              && w'.registry == w.registry
              && if lookup == Usable then GainsEntry(s, Entry(addr, w.next, NULL), s') else s' == s
            case End(u, target) => exists rc :: EndedExactly(s, Looked(w, u, target), s', rc)
  {
    assert MemberOk(w, a.u);
    if a.End? {
      EndItExact(w.members[a.u].sock, Looked(w, a.u, a.target));
    }
  }

  ghost predicate ActsInTime(m: Member) {
    m.phase == Ready ==> !m.sock.ctxTerminated && m.sock.ending == []
  }

  /** A call acts only if its own reading has just succeeded: it found no stop, nor had one
      been found before, and no term_endpoint is still pending. */
  lemma {:induction false} ReadyIsRunning(opts: seq<Options>, acts: seq<Action>, u: nat)
    requires u < |opts|
    ensures var w := Inproc.Run(Start(opts), acts); |w.members| == |opts| && ActsInTime(w.members[u])
  {
    if acts != [] {
      var pre, a := acts[..|acts| - 1], acts[|acts| - 1];
      ReadyIsRunning(opts, pre, u);
      ReadyStays(Inproc.Run(Start(opts), pre), a, u);
    }
  }

  lemma ReadyStays(w: World, a: Action, u: nat)
    requires u < |w.members| && ActsInTime(w.members[u])
    ensures |Step(w, a).members| == |w.members| && ActsInTime(Step(w, a).members[u])
  {
    if Enabled(w, a) && a.u == u {
      if a.Recv? {
        assert Step(w, a).members[u].phase == Ready ==> Fails(w.members[u].sock, a.signal) && w.members[u].sock.ending == [];
      } else if a.SendBind? {
        assert BindSent(w, u, w.members[u].connecting.value).members[u].phase == w.members[u].phase;
      }
    }
  }

  /** And it does get to act then: the last recv of a reading lets the call go on iff there
      was neither a signal nor a stop. */
  lemma ReadingEnds(w: World, u: nat, signal: bool)
    requires WorldInv(w) && Enabled(w, Recv(u, signal))
    requires Fails(w.members[u].sock, signal) && w.members[u].sock.ending == []
    ensures Step(w, Recv(u, signal)).members[u].phase == if signal || w.members[u].sock.ctxTerminated then Idle else Ready
  {
  }
}
