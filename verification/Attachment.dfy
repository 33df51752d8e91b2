/** Which pipes are attached: what a reading makes of them, what connect and bind do to a
    socket in every case, and that a pipe that was connected is there to be ended. */
module Attachment {
  import opened SocketState
  import opened Endpoints
  import opened Mailbox
  import opened SocketCalls
  import opened ConnectRoundTrip

  // ---- a reading

  function PipesOne(pipes: seq<Pipe>, cmd: Cmd): seq<Pipe> {
    match cmd
    case Bind(p) => pipes + [p]
    case PipeTermAck(p) => Remove(pipes, p)
    case _ => pipes
  }

  /** The pipes attached after the commands, in order: a bind brings one, its ack takes it
      away. */
  function PipesAfter(pipes: seq<Pipe>, cmds: seq<Cmd>): seq<Pipe>
    decreases |cmds|
  {
    if cmds == [] then pipes else PipesAfter(PipesOne(pipes, cmds[0]), cmds[1..])
  }

  lemma OneRecvPipes(s: Sock, signal: bool)
    requires Fails(s, signal) ==> s.ending != []
    ensures OneRecv(s, signal).pipes == PipesAfter(s.pipes, Handled(s, signal))
  {
    if Fails(s, signal) {
      ReturnFrame(Failing(s, signal).0, Failing(s, signal).1);
    } else {
      assert [s.mailbox[0]][1..] == [];
    }
  }

  /** A reading, with all that is nested in it, attaches and detaches what the commands
      handled say, and nothing else. */
  lemma {:induction false} ReadPipes(s: Sock, poll: Poll, depth: nat)
    requires depth <= |s.ending|
    ensures ReadTo(s, poll, depth).sock.pipes == PipesAfter(s.pipes, LogTo(s, poll, depth).handled)
    decreases Work(s, poll)
  {
    var s1, signal := Arrive(s, Next(poll).arrived), Next(poll).signal;
    ArriveFrame(s, Next(poll).arrived);
    if !Over(s1, signal, depth) {
      var s2 := OneRecv(s1, signal);
      OneRecvPipes(s1, signal);
      ReadPipes(s2, Rest(poll), depth);
      PipesBoth(s1.pipes, Handled(s1, signal), LogTo(s2, Rest(poll), depth).handled);
    }
  }

  lemma {:induction false} RemoveOther(pipes: seq<Pipe>, p: Pipe, q: Pipe)
    requires p != q
    ensures p in Remove(pipes, q) <==> p in pipes
  {
    if pipes != [] {
      assert pipes == [pipes[0]] + pipes[1..];
      if pipes[0] != q {
        RemoveOther(pipes[1..], p, q);
      }
    }
  }

  /** A pipe stays attached until its ack is handled. */
  lemma {:induction false} StaysAttached(pipes: seq<Pipe>, cmds: seq<Cmd>, p: Pipe)
    requires p in pipes && PipeTermAck(p) !in cmds
    ensures p in PipesAfter(pipes, cmds)
    decreases |cmds|
  {
    if cmds != [] {
      if cmds[0].PipeTermAck? {
        RemoveOther(pipes, p, cmds[0].pipe);
      }
      StaysAttached(PipesOne(pipes, cmds[0]), cmds[1..], p);
    }
  }

  /** And it is not attached unless it was, or was bound. */
  lemma {:induction false} ComesByBind(pipes: seq<Pipe>, cmds: seq<Cmd>, p: Pipe)
    requires p in PipesAfter(pipes, cmds)
    ensures p in pipes || Bind(p) in cmds
    decreases |cmds|
  {
    if cmds != [] {
      ComesByBind(PipesOne(pipes, cmds[0]), cmds[1..], p);
      if cmds[0].PipeTermAck? && Bind(p) !in cmds {
        RemoveIn(pipes, cmds[0].pipe, p);
      }
    }
  }

  lemma {:induction false} RemoveIn(pipes: seq<Pipe>, q: Pipe, p: Pipe)
    requires p in Remove(pipes, q)
    ensures p in pipes
  {
    if pipes[0] != q && p != pipes[0] {
      RemoveIn(pipes[1..], q, p);
    }
  }

  lemma {:induction false} PipesBoth(pipes: seq<Pipe>, a: seq<Cmd>, b: seq<Cmd>)
    ensures PipesAfter(pipes, a + b) == PipesAfter(PipesAfter(pipes, a), b)
    decreases |a|
  {
    if a == [] {
      assert [] + b == b;
    } else {
      assert (a + b)[1..] == a[1..] + b;
      PipesBoth(PipesOne(pipes, a[0]), a[1..], b);
    }
  }

  // ---- one connect, one bind

  /** The socket as the call's own reading leaves it. */
  function AfterReading(s: Sock, poll: Poll): Sock {
    Drain(s, poll).0
  }

  /** For the socket types that connect to an address once. */
  predicate Already(d: Sock, addr: Addr) {
    d.opts.singleConnect && Listed(d.endpoints, addr)
  }

  predicate MakesEntry(s: Sock, addr: Addr, a: Attempt) {
    !s.ctxTerminated && Drain(s, a.poll).1 == Ok && a.lookup == Usable && !Already(AfterReading(s, a.poll), addr)
  }

  /** What a new entry is to the socket: a session that it owns once the own command is
      read, and, unless immediate, a pipe that is attached. */
  ghost predicate GainsEntry(d: Sock, e: Entry, s': Sock) {
    && s'.endpoints == d.endpoints + [e]
    && s'.pipes == d.pipes + (if e.pipe == NULL then [] else [e.pipe])
    && s'.mailbox == d.mailbox + [Own(e.child)]
    && s'.own == d.own.(sentSeqnum := d.own.sentSeqnum + 1, termAcks := s'.own.termAcks)
    && s' == d.(endpoints := s'.endpoints, pipes := s'.pipes, mailbox := s'.mailbox, own := s'.own, asked := s'.asked)
    && (!d.own.terminating ==> s'.asked == d.asked && s'.own.termAcks == d.own.termAcks)
  }

  /** connect in every case: which error comes first, and that it changes the socket beyond
      its reading exactly when it makes an entry. */
  lemma ConnectExact(s: Sock, addr: Addr, a: Attempt)
    requires a.pipe != NULL
    ensures var (s', rc), d, read := ConnectOne(s, addr, a), AfterReading(s, a.poll), Drain(s, a.poll).1;
            if s.ctxTerminated then s' == s && rc == Err(ETERM)
            else
              && d.pipes == PipesAfter(s.pipes, DrainLog(s, a.poll).handled)
              && (if MakesEntry(s, addr, a) then GainsEntry(d, EntryOf(s, addr, a), s') else s' == d)
              && (read != Ok ==> rc == read)
              && (read == Ok ==>
                    && (rc == Ok <==> a.lookup == Usable || (a.lookup != BadUri && Already(d, addr)))
                    && (rc == Err(EMTHREAD) <==> a.lookup == NoThread && !Already(d, addr))
                    && (rc == Err(EINVAL) <==> a.lookup == BadUri || (a.lookup == BadAddress && !Already(d, addr))))
  {
    if !s.ctxTerminated {
      ReadPipes(s, a.poll, |s.ending|);
      DrainFrame(s, a.poll);
    }
  }

  /** bind in every case; it never attaches a pipe. */
  lemma BindExact(s: Sock, addr: Addr, lookup: Lookup, child: Child, poll: Poll)
    ensures var (s', rc), d, read := BindListener(s, addr, lookup, child, poll), AfterReading(s, poll), Drain(s, poll).1;
            if s.ctxTerminated then s' == s && rc == Err(ETERM)
            else
              && d.pipes == PipesAfter(s.pipes, DrainLog(s, poll).handled)
              && (if read == Ok && lookup == Usable then GainsEntry(d, Entry(addr, child, NULL), s') else s' == d)
              && (read != Ok ==> rc == read)
              && (read == Ok ==>
                    && (rc == Ok <==> lookup == Usable) && (rc == Err(EINVAL) <==> lookup == BadUri)
                    && (rc == Err(EMTHREAD) <==> lookup == NoThread))
  {
    if !s.ctxTerminated {
      ReadPipes(s, poll, |s.ending|);
      DrainFrame(s, poll);
    }
  }

  // ---- many connects

  /** What happens to the pipes over the calls: commands handled, and pipes connected. */
  function History(s: Sock, addr: Addr, calls: seq<Attempt>): seq<Cmd> {
    if calls == [] then [] else
      var pre, a := calls[..|calls| - 1], calls[|calls| - 1];
      var mid := ConnectAll(s, addr, pre);
      History(s, addr, pre) + CallLog(mid, a.poll).handled
      + (if MakesEntry(mid, addr, a) && !s.opts.immediate then [Bind(a.pipe)] else [])
  }

  ghost predicate RealPipes(calls: seq<Attempt>) {
    forall i :: 0 <= i < |calls| ==> calls[i].pipe != NULL
  }

  lemma ConnectOpts(s: Sock, addr: Addr, a: Attempt)
    ensures ConnectOne(s, addr, a).0.opts == s.opts
  {
    DrainFrame(s, a.poll);
  }

  /** Over any calls, successful or not, the pipes attached are those that were, those
      bound, and those of the entries made, in that order of events, less those whose ack
      was handled since. */
  lemma {:induction false} ConnectsAttach(s: Sock, addr: Addr, calls: seq<Attempt>)
    requires RealPipes(calls)
    ensures ConnectAll(s, addr, calls).pipes == PipesAfter(s.pipes, History(s, addr, calls))
    ensures ConnectAll(s, addr, calls).opts == s.opts
  {
    if calls != [] {
      var pre, a := calls[..|calls| - 1], calls[|calls| - 1];
      var mid := ConnectAll(s, addr, pre);
      ConnectsAttach(s, addr, pre);
      ConnectExact(mid, addr, a);
      ConnectOpts(mid, addr, a);
      var handled := CallLog(mid, a.poll).handled;
      var made := if MakesEntry(mid, addr, a) && !s.opts.immediate then [Bind(a.pipe)] else [];
      PipesBoth(s.pipes, History(s, addr, pre) + handled, made);
      PipesBoth(s.pipes, History(s, addr, pre), handled);
    }
  }

  /** What is handled in the calls from the k-th on. */
  function HandledSince(s: Sock, addr: Addr, calls: seq<Attempt>, k: nat): seq<Cmd> {
    if |calls| <= k then [] else
      var pre := calls[..|calls| - 1];
      HandledSince(s, addr, pre, k) + CallLog(ConnectAll(s, addr, pre), calls[|calls| - 1].poll).handled
  }

  lemma NewPipe(s: Sock, addr: Addr, a: Attempt)
    requires MakesEntry(s, addr, a) && !s.opts.immediate && a.pipe != NULL
    ensures a.pipe in ConnectOne(s, addr, a).0.pipes
  {
    DrainFrame(s, a.poll);
  }

  lemma OldPipe(s: Sock, addr: Addr, a: Attempt, p: Pipe)
    requires p in s.pipes && PipeTermAck(p) !in CallLog(s, a.poll).handled && a.pipe != NULL
    ensures p in ConnectOne(s, addr, a).0.pipes
  {
    if !s.ctxTerminated {
      ConnectExact(s, addr, a);
      StaysAttached(s.pipes, DrainLog(s, a.poll).handled, p);
    }
  }

  lemma StillAttached(s: Sock, addr: Addr, calls: seq<Attempt>, k: nat, p: Pipe)
    requires k < |calls| && calls[|calls| - 1].pipe != NULL
    requires p in ConnectAll(s, addr, calls[..|calls| - 1]).pipes && PipeTermAck(p) !in HandledSince(s, addr, calls, k)
    ensures p in ConnectAll(s, addr, calls).pipes
  {
    OldPipe(ConnectAll(s, addr, calls[..|calls| - 1]), addr, calls[|calls| - 1], p);
  }

  /** The pipe of an entry made is attached as long as its ack has not been handled. */
  lemma {:induction false} EntryAttached(s: Sock, addr: Addr, calls: seq<Attempt>, i: nat)
    requires RealPipes(calls) && i < |calls| && !s.opts.immediate
    requires MakesEntry(ConnectAll(s, addr, calls[..i]), addr, calls[i])
    requires PipeTermAck(calls[i].pipe) !in HandledSince(s, addr, calls, i + 1)
    ensures calls[i].pipe in ConnectAll(s, addr, calls).pipes
  {
    var pre, p := calls[..|calls| - 1], calls[i].pipe;
    if i < |pre| {
      assert pre[..i] == calls[..i];
      assert HandledSince(s, addr, pre, i + 1) <= HandledSince(s, addr, calls, i + 1);
      EntryAttached(s, addr, pre, i);
      StillAttached(s, addr, calls, i + 1, p);
    } else {
      ConnectsAttach(s, addr, pre);
      NewPipe(ConnectAll(s, addr, pre), addr, calls[i]);
    }
  }

  lemma SuccessMakes(s: Sock, addr: Addr, a: Attempt)
    requires Succeeds(s, addr, a)
    ensures MakesEntry(s, addr, a) <==> !s.opts.singleConnect || Matching(s.endpoints, addr) == []
  {
    var d := AfterReading(s, a.poll);
    DrainFrame(s, a.poll);
    DrainHandles(s, a.poll);
    MatchingKept(s.endpoints, addr, DrainLog(s, a.poll).gone);
    ListedIff(d.endpoints, addr);
  }

  /** Of successful calls for an address that was not listed, the first one makes an entry,
      and the others do too unless the socket type connects to an address once. */
  lemma WhichMake(s: Sock, addr: Addr, calls: seq<Attempt>, i: nat)
    requires AllSucceed(s, addr, calls) && Matching(s.endpoints, addr) == [] && i < |calls|
    ensures MakesEntry(ConnectAll(s, addr, calls[..i]), addr, calls[i]) <==> i == 0 || !s.opts.singleConnect
  {
    var pre := calls[..i];
    forall j | 0 <= j < i ensures Succeeds(ConnectAll(s, addr, pre[..j]), addr, pre[j]) {
      assert pre[..j] == calls[..j] && pre[j] == calls[j];
    }
    ConnectsMatch(s, addr, pre);
    SuccessMakes(ConnectAll(s, addr, pre), addr, calls[i]);
  }

  /** No pipe is missed: after successful connects, a pipe that was made and whose ack has
      not been handled since is attached when term_endpoint has done its reading, and is
      asked to terminate. */
  lemma ConnectedIsAsked(s: Sock, t: Target, calls: seq<Attempt>, s1: Sock, poll: Poll, d: Sock, i: nat)
    requires (t.Known? || t.Tcp?) && InUse(s1) && Matching(s.endpoints, t.addr) == [] && RealPipes(calls)
    requires AllSucceed(s, t.addr, calls) && s1 == ConnectAll(s, t.addr, calls)
    requires SmoothEnd(s1, t, t.addr, poll) && d == TermDrained(s1, t, poll)
    requires i < |Made(s, calls)| && !s.opts.immediate
    requires PipeTermAck(calls[i].pipe) !in HandledSince(s, t.addr, calls, i + 1) + TermLog(s1, t, poll).handled
    ensures calls[i].pipe in d.pipes && calls[i].pipe in TermEndpoint(s1, t, poll).0.asked[|d.asked|..]
  {
    var p := calls[i].pipe;
    WhichMake(s, t.addr, calls, i);
    EntryAttached(s, t.addr, calls, i);
    ReadPipes(EnterTerm(s1, t), poll, |s1.ending| + 1);
    StaysAttached(s1.pipes, TermLog(s1, t, poll).handled, p);
    ConnectsMatch(s, t.addr, calls);
    ConnectedIsEnded(s, t, calls, s1, poll, d);
    var e := EntryOf(s, t.addr, Made(s, calls)[i]);
    assert e == Entries(s, t.addr, Made(s, calls))[i];
  }
}
