/** The reading of a socket's mailbox.  A term_endpoint command makes the socket read
    its mailbox again before it acts, in the middle of the first reading, and again
    if there is another such command; Sock.ending is that stack of calls. */
module Mailbox {
  import opened SocketState
  import opened Endpoints

  /** What one mailbox->recv meets: commands that arrived since the one before, and
      whether a signal interrupts it. */
  datatype Moment = Moment(arrived: seq<Cmd>, signal: bool)

  /** What the successive calls of recv meet; past the end nothing more happens. */
  type Poll = seq<Moment>

  const UNDISTURBED: Poll := []

  function Next(poll: Poll): Moment {
    if poll == [] then Moment([], false) else poll[0]
  }

  function Rest(poll: Poll): Poll {
    if poll == [] then [] else poll[1..]
  }

  function Load(poll: Poll): nat {
    if poll == [] then 0 else |poll[0].arrived| + Load(poll[1..])
  }

  function Arrive(s: Sock, cmds: seq<Cmd>): (s': Sock)
    ensures s'.mailbox == s.mailbox + cmds && s'.ending == s.ending
  {
    if cmds == [] then s else
      var last := |cmds| - 1;
      assert cmds == cmds[..last] + [cmds[last]];
      Post(Arrive(s, cmds[..last]), cmds[last])
  }

  /** What is left to read: a bound on the calls of recv that find something to do. */
  function Work(s: Sock, poll: Poll): nat {
    2 * (|s.mailbox| + Load(poll)) + |s.ending|
  }

  /** The innermost pending term_endpoint gets the answer of its process_commands. */
  function Return(s: Sock, errno: Errno): (s': Sock)
    requires s.ending != []
    ensures s'.mailbox == s.mailbox && s'.ending == s.ending[..|s.ending| - 1]
  {
    var t, s1 := s.ending[|s.ending| - 1], s.(ending := s.ending[..|s.ending| - 1]);
    if errno == EAGAIN && !s.ctxTerminated && !t.Null? then EndIt(s1, t).0 else s1
  }

  /** A reading ends with EAGAIN, the mailbox empty, or with EINTR. */
  datatype Read = Read(sock: Sock, rest: Poll, errno: Errno)

  /** A recv without a command. */
  function Failing(s: Sock, signal: bool): (Sock, Errno) {
    if signal then (s, EINTR) else (s.(undrained := 0), EAGAIN)
  }

  predicate Fails(s: Sock, signal: bool) {
    signal || s.mailbox == []
  }

  /** One recv and what follows: a command is processed, or the innermost pending
      term_endpoint goes on. */
  function OneRecv(s: Sock, signal: bool): (s': Sock)
    requires Fails(s, signal) ==> s.ending != []
    ensures |s'.mailbox| + (if Fails(s, signal) then 0 else 1) == |s.mailbox|
    ensures if Fails(s, signal) then s'.ending == s.ending[..|s.ending| - 1]
            else s.ending <= s'.ending && |s'.ending| <= |s.ending| + 1
  {
    if Fails(s, signal) then var (s1, errno) := Failing(s, signal); Return(s1, errno) else TakeOne(s)
  }

  /** The reading of the call at this depth is over. */
  predicate Over(s: Sock, signal: bool, depth: nat) {
    Fails(s, signal) && |s.ending| == depth
  }

  /** The loop of process_commands, with all that is nested in it, until the reading
      of the call at this depth ends. */
  function ReadTo(s: Sock, poll: Poll, depth: nat): (r: Read)
    requires depth <= |s.ending|
    ensures r.sock.ending == s.ending[..depth]
    ensures Work(r.sock, r.rest) <= Work(s, poll)
    ensures r.errno == EINTR || (r.errno == EAGAIN && r.sock.mailbox == [] && r.sock.undrained == 0)
    decreases Work(s, poll)
  {
    var s1, signal := Arrive(s, Next(poll).arrived), Next(poll).signal;
    if Over(s1, signal, depth) then
      var (s2, errno) := Failing(s1, signal); Read(s2, Rest(poll), errno)
    else
      ReadTo(OneRecv(s1, signal), Rest(poll), depth)
  }

  /** What the reading of a nested call leaves is what the outer reading goes on with. */
  lemma {:induction false} Nested(s: Sock, poll: Poll, depth: nat)
    requires depth < |s.ending|
    ensures var r := ReadTo(s, poll, depth + 1);
            ReadTo(s, poll, depth) == ReadTo(Return(r.sock, r.errno), r.rest, depth)
    decreases Work(s, poll)
  {
    var s1, signal := Arrive(s, Next(poll).arrived), Next(poll).signal;
    if !Over(s1, signal, depth + 1) {
      Nested(OneRecv(s1, signal), Rest(poll), depth);
    }
  }

  // ---- the invariant

  /** The commands arrive one after the other, each in a state that allows it. */
  ghost predicate Posts(s: Sock, cmds: seq<Cmd>) {
    cmds == [] ||
    var last := |cmds| - 1;
    Posts(s, cmds[..last]) && PostOk(Arrive(s, cmds[..last]), cmds[last])
  }

  lemma {:induction false} ArriveKeeps(s: Sock, cmds: seq<Cmd>)
    requires SockInv(s) && Posts(s, cmds)
    ensures SockInv(Arrive(s, cmds))
  {
    if cmds != [] {
      var last := |cmds| - 1;
      ArriveKeeps(s, cmds[..last]);
      PostKeeps(Arrive(s, cmds[..last]), cmds[last]);
    }
  }

  /** What arrives during a reading is allowed when it arrives: it may answer commands
      that the same reading has processed. */
  ghost predicate Lawful(s: Sock, poll: Poll, depth: nat)
    requires depth <= |s.ending|
    decreases Work(s, poll)
  {
    var s1, signal := Arrive(s, Next(poll).arrived), Next(poll).signal;
    && Posts(s, Next(poll).arrived)
    && (!Over(s1, signal, depth) ==> Lawful(OneRecv(s1, signal), Rest(poll), depth))
  }

  /** For instance a pipe that is bound and terminates again in one reading. */
  lemma AnswerIsLawful(s: Sock, p: Pipe)
    requires SockInv(s) && s.mailbox == [Bind(p)]
    ensures Lawful(s, [Moment([], false), Moment([PipeTermAck(p)], false)], |s.ending|)
  {
    var cmds, last := [PipeTermAck(p)], [Moment([PipeTermAck(p)], false)];
    var poll := [Moment([], false)] + last;
    var s2 := TakeOne(s);
    assert poll[1..] == last && last[1..] == [] && cmds[..0] == [];
    assert s2.mailbox == [] && p in s2.pipes && s2.ending == s.ending;
    assert Posts(s2, []) && Posts(s2, cmds);
    assert Posts(s, []) && Arrive(s, []) == s;
    var s3 := Arrive(s2, cmds);
    assert Lawful(TakeOne(s3), [], |s.ending|) by {
      assert Posts(TakeOne(s3), []);
    }
    assert Lawful(s2, last, |s.ending|);
  }

  lemma ReturnKeeps(s: Sock, errno: Errno)
    requires SockInv(s) && s.ending != []
    ensures SockInv(Return(s, errno))
  {
    var t, s1 := s.ending[|s.ending| - 1], s.(ending := s.ending[..|s.ending| - 1]);
    SameKeeps(s, s1);
    if !t.Null? {
      EndItKeeps(s1, t);
    }
  }

  lemma OneRecvKeeps(s: Sock, signal: bool)
    requires SockInv(s) && (Fails(s, signal) ==> s.ending != [])
    ensures SockInv(OneRecv(s, signal))
  {
    if Fails(s, signal) {
      var (s1, errno) := Failing(s, signal);
      SameKeeps(s, s1);
      ReturnKeeps(s1, errno);
    } else {
      CommandKeeps(s);
    }
  }

  lemma {:induction false} ReadKeeps(s: Sock, poll: Poll, depth: nat)
    requires depth <= |s.ending| && SockInv(s) && Lawful(s, poll, depth)
    ensures SockInv(ReadTo(s, poll, depth).sock)
    decreases Work(s, poll)
  {
    var s1, signal := Arrive(s, Next(poll).arrived), Next(poll).signal;
    ArriveKeeps(s, Next(poll).arrived);
    if Over(s1, signal, depth) {
      SameKeeps(s1, Failing(s1, signal).0);
    } else {
      OneRecvKeeps(s1, signal);
      ReadKeeps(OneRecv(s1, signal), Rest(poll), depth);
    }
  }

  /** A signal that interrupts the reading of a requested term_endpoint drops the
      request; the outer reading goes on. */
  lemma SignalDropsRequest(s: Sock, poll: Poll, depth: nat)
    requires depth < |s.ending| && poll != [] && poll[0] == Moment([], true)
    ensures ReadTo(s, poll, depth) == ReadTo(s.(ending := s.ending[..|s.ending| - 1]), poll[1..], depth)
  {
    assert Arrive(s, []) == s;
  }

  // ---- what a reading does not touch

  ghost predicate SameRest(s: Sock, s': Sock) {
    && s'.opts == s.opts && s'.lastTsc == s.lastTsc && s'.ticks == s.ticks
    && (s'.undrained == s.undrained || s'.undrained == 0)
    && s'.own.terminating == s.own.terminating && s'.own.sentSeqnum == s.own.sentSeqnum
    && (s.ctxTerminated ==> s'.ctxTerminated)
  }

  lemma {:induction false} ArriveFrame(s: Sock, cmds: seq<Cmd>)
    ensures Arrive(s, cmds) == s.(mailbox := s.mailbox + cmds, own := s.own.(promised := Arrive(s, cmds).own.promised))
  {
    if cmds != [] {
      var last := |cmds| - 1;
      ArriveFrame(s, cmds[..last]);
      assert cmds == cmds[..last] + [cmds[last]];
    }
  }

  lemma {:induction false} TermChildrenFrame(o: OwnPart, range: seq<Entry>)
    ensures var o' := TermChildren(o, range);
            o'.terminating == o.terminating && o'.sentSeqnum == o.sentSeqnum && o'.promised == o.promised
  {
    if range != [] {
      TermChildrenFrame(o, range[..|range| - 1]);
    }
  }

  lemma ReturnFrame(s: Sock, errno: Errno)
    requires s.ending != []
    ensures SameRest(s, Return(s, errno)) && Return(s, errno).ctxTerminated == s.ctxTerminated
    ensures Return(s, errno).pipes == s.pipes && Return(s, errno).own.promised == s.own.promised
  {
    var t, s1 := s.ending[|s.ending| - 1], s.(ending := s.ending[..|s.ending| - 1]);
    if (t.Known? || t.Tcp?) && Matching(s.endpoints, Key(s.endpoints, t)) != [] {
      TermChildrenFrame(s1.own, Matching(s.endpoints, Key(s.endpoints, t)));
    }
  }

  lemma OneRecvFrame(s: Sock, signal: bool)
    requires Fails(s, signal) ==> s.ending != []
    ensures SameRest(s, OneRecv(s, signal))
    ensures OneRecv(s, signal).ctxTerminated <==> s.ctxTerminated || Stop in Handled(s, signal)
    ensures OneRecv(s, signal).own.promised == s.own.promised
  {
    if Fails(s, signal) {
      var (s1, errno) := Failing(s, signal);
      ReturnFrame(s1, errno);
    } else {
      CommandFrame(s.(mailbox := s.mailbox[1..]), s.mailbox[0]);
    }
  }

  lemma {:induction false} ReadFrame(s: Sock, poll: Poll, depth: nat)
    requires depth <= |s.ending|
    ensures SameRest(s, ReadTo(s, poll, depth).sock)
    decreases Work(s, poll)
  {
    var s1, signal := Arrive(s, Next(poll).arrived), Next(poll).signal;
    ArriveFrame(s, Next(poll).arrived);
    if !Over(s1, signal, depth) {
      OneRecvFrame(s1, signal);
      ReadFrame(OneRecv(s1, signal), Rest(poll), depth);
    }
  }

  ghost predicate Unsignalled(poll: Poll) {
    forall i :: 0 <= i < |poll| ==> !poll[i].signal
  }

  lemma {:induction false} UnsignalledEnds(s: Sock, poll: Poll, depth: nat)
    requires depth <= |s.ending| && Unsignalled(poll)
    ensures ReadTo(s, poll, depth).errno == EAGAIN
    decreases Work(s, poll)
  {
    var s1, signal := Arrive(s, Next(poll).arrived), Next(poll).signal;
    if !Over(s1, signal, depth) {
      UnsignalledEnds(OneRecv(s1, signal), Rest(poll), depth);
    }
  }

  // ---- what a reading handles

  /** The commands taken out, in order; those that arrived; and the addresses whose
      entries were removed. */
  datatype Log = Log(handled: seq<Cmd>, came: seq<Cmd>, gone: set<Addr>)

  function Handled(s: Sock, signal: bool): seq<Cmd> {
    if Fails(s, signal) then [] else [s.mailbox[0]]
  }

  function Removed(s: Sock, signal: bool): set<Addr> {
    if !Fails(s, signal) || signal || s.ctxTerminated || s.ending == [] then {} else
      var t := s.ending[|s.ending| - 1];
      if t.Known? || t.Tcp? then {Key(s.endpoints, t)} else {}
  }

  function LogTo(s: Sock, poll: Poll, depth: nat): Log
    requires depth <= |s.ending|
    decreases Work(s, poll)
  {
    var s1, signal := Arrive(s, Next(poll).arrived), Next(poll).signal;
    if Over(s1, signal, depth) then Log([], Next(poll).arrived, {}) else
      var l := LogTo(OneRecv(s1, signal), Rest(poll), depth);
      Log(Handled(s1, signal) + l.handled, Next(poll).arrived + l.came, Removed(s1, signal) + l.gone)
  }

  /** Every command is handled, in the order in which it came, up to those still in
      the mailbox. */
  lemma {:induction false} HandledInOrder(s: Sock, poll: Poll, depth: nat)
    requires depth <= |s.ending|
    ensures var l := LogTo(s, poll, depth);
            l.handled + ReadTo(s, poll, depth).sock.mailbox == s.mailbox + l.came
    decreases Work(s, poll)
  {
    var s1, signal := Arrive(s, Next(poll).arrived), Next(poll).signal;
    if !Over(s1, signal, depth) {
      var s2 := OneRecv(s1, signal);
      HandledInOrder(s2, Rest(poll), depth);
      var l, mail := LogTo(s2, Rest(poll), depth), ReadTo(s2, Rest(poll), depth).sock.mailbox;
      Regroup(Handled(s1, signal), l.handled, mail, s2.mailbox, l.came, s.mailbox, Next(poll).arrived);
    }
  }

  lemma Regroup(h: seq<Cmd>, hs: seq<Cmd>, left: seq<Cmd>, mail: seq<Cmd>, came: seq<Cmd>, s: seq<Cmd>, arrived: seq<Cmd>)
    requires hs + left == mail + came && h + mail == s + arrived
    ensures (h + hs) + left == s + (arrived + came)
  {
    assert (h + hs) + left == h + (hs + left);
    assert h + (mail + came) == (h + mail) + came;
    assert (s + arrived) + came == s + (arrived + came);
  }

  /** The stop flag is set by a stop, and by nothing else. */
  lemma {:induction false} StopHandled(s: Sock, poll: Poll, depth: nat)
    requires depth <= |s.ending|
    ensures ReadTo(s, poll, depth).sock.ctxTerminated <==> s.ctxTerminated || Stop in LogTo(s, poll, depth).handled
    decreases Work(s, poll)
  {
    var s1, signal := Arrive(s, Next(poll).arrived), Next(poll).signal;
    ArriveFrame(s, Next(poll).arrived);
    if !Over(s1, signal, depth) {
      OneRecvFrame(s1, signal);
      StopHandled(OneRecv(s1, signal), Rest(poll), depth);
    }
  }

  /** The addresses that handled term_endpoint commands, or pending ones, may mean. */
  ghost predicate Requested(handled: seq<Cmd>, pending: seq<Target>, a: Addr) {
    || (exists i :: 0 <= i < |handled| && handled[i].TermEp? && a in Forms(handled[i].target))
    || (exists i :: 0 <= i < |pending| && a in Forms(pending[i]))
  }

  /** One recv removes whole addresses; which ones, the pending or handled command said. */
  lemma OneRecvRemoves(s: Sock, signal: bool)
    requires Fails(s, signal) ==> s.ending != []
    ensures OneRecv(s, signal).endpoints == Without(s.endpoints, Removed(s, signal))
  {
    if Removed(s, signal) == {} {
      WithoutNone(s.endpoints, {});
      if !Fails(s, signal) {
        CommandFrame(s.(mailbox := s.mailbox[1..]), s.mailbox[0]);
      }
    } else {
      var key := Key(s.endpoints, s.ending[|s.ending| - 1]);
      if Matching(s.endpoints, key) == [] {
        NothingToRemove(s.endpoints, key);
      }
    }
  }

  /** The endpoint map only loses, whole addresses at a time, those that a handled
      term_endpoint command asked for. */
  lemma {:induction false} OnlyAskedGo(s: Sock, poll: Poll, depth: nat)
    requires depth <= |s.ending|
    ensures var l := LogTo(s, poll, depth);
            && ReadTo(s, poll, depth).sock.endpoints == Without(s.endpoints, l.gone)
            && forall a :: a in l.gone ==> Requested(l.handled, s.ending[depth..], a)
    decreases Work(s, poll)
  {
    var s1, signal := Arrive(s, Next(poll).arrived), Next(poll).signal;
    ArriveFrame(s, Next(poll).arrived);
    if Over(s1, signal, depth) {
      WithoutNone(s.endpoints, {});
    } else {
      var s2 := OneRecv(s1, signal);
      var l := LogTo(s2, Rest(poll), depth);
      OneRecvRemoves(s1, signal);
      OnlyAskedGo(s2, Rest(poll), depth);
      WithoutTwice(s.endpoints, Removed(s1, signal), l.gone);
      RequestedStep(s1, signal, depth, l.handled);
    }
  }

  lemma RequestedStep(s: Sock, signal: bool, depth: nat, handled: seq<Cmd>)
    requires depth <= |s.ending| && !Over(s, signal, depth)
    ensures forall a :: Requested(handled, OneRecv(s, signal).ending[depth..], a)
              ==> Requested(Handled(s, signal) + handled, s.ending[depth..], a)
    ensures forall a :: a in Removed(s, signal) ==> Requested(Handled(s, signal) + handled, s.ending[depth..], a)
  {
    var pending, pending' := s.ending[depth..], OneRecv(s, signal).ending[depth..];
    if Fails(s, signal) {
      assert [] + handled == handled && pending' == pending[..|pending| - 1];
    } else {
      RequestedMore(s.mailbox[0], handled, pending, pending');
    }
  }

  lemma RequestedMore(cmd: Cmd, handled: seq<Cmd>, pending: seq<Target>, pending': seq<Target>)
    requires pending' == pending || (cmd.TermEp? && pending' == pending + [cmd.target])
    ensures forall a :: Requested(handled, pending', a) ==> Requested([cmd] + handled, pending, a)
  {
    var all := [cmd] + handled;
    forall a | Requested(handled, pending', a) ensures Requested(all, pending, a) {
      if i :| 0 <= i < |handled| && handled[i].TermEp? && a in Forms(handled[i].target) {
        assert all[i + 1].TermEp? && a in Forms(all[i + 1].target);
      } else {
        var i :| 0 <= i < |pending'| && a in Forms(pending'[i]);
        if i < |pending| {
          assert a in Forms(pending[i]);
        } else {
          assert all[0].TermEp? && a in Forms(all[0].target);
        }
      }
    }
  }

  // ---- requests are carried out

  /** A request to end an address of a session transport. */
  predicate RequestFor(cmd: Cmd, a: Addr) {
    cmd.TermEp? && (cmd.target.Known? || cmd.target.Tcp?) && cmd.target.addr == a
  }

  ghost predicate RequestedFor(handled: seq<Cmd>, pending: seq<Target>, a: Addr) {
    || (exists i :: 0 <= i < |handled| && RequestFor(handled[i], a))
    || (exists i :: 0 <= i < |pending| && RequestFor(TermEp(pending[i]), a))
  }

  /** No entries appear. */
  lemma {:induction false} StaysUnlisted(s: Sock, poll: Poll, depth: nat, a: Addr)
    requires depth <= |s.ending| && !Listed(s.endpoints, a)
    ensures !Listed(ReadTo(s, poll, depth).sock.endpoints, a)
  {
    OnlyAskedGo(s, poll, depth);
    WithoutUnlisted(s.endpoints, LogTo(s, poll, depth).gone, a);
  }

  /** The innermost request, its reading over and no stop seen, leaves its address
      unlisted: it was not listed, or it was the key. */
  lemma ReturnUnlists(s: Sock, a: Addr)
    requires s.ending != [] && !s.ctxTerminated && s.mailbox == [] && RequestFor(TermEp(s.ending[|s.ending| - 1]), a)
    ensures !Listed(OneRecv(s, false).endpoints, a)
  {
    OneRecvRemoves(s, false);
    if Listed(s.endpoints, a) {
      NothingMatches(s.endpoints, {a}, a);
      MatchingIn(OneRecv(s, false).endpoints, a);
    } else {
      WithoutUnlisted(s.endpoints, Removed(s, false), a);
    }
  }

  lemma HandledOrPending(s: Sock, handled: seq<Cmd>, depth: nat, a: Addr)
    requires depth <= |s.ending| && !Over(s, false, depth) && !s.ctxTerminated
    requires RequestedFor(Handled(s, false) + handled, s.ending[depth..], a)
    ensures || RequestedFor(handled, OneRecv(s, false).ending[depth..], a)
            || (s.mailbox == [] && RequestFor(TermEp(s.ending[|s.ending| - 1]), a))
  {
    var all, pending, pending' := Handled(s, false) + handled, s.ending[depth..], OneRecv(s, false).ending[depth..];
    if i :| 0 <= i < |all| && RequestFor(all[i], a) {
      if i < |Handled(s, false)| {
        assert pending'[|pending|] == s.mailbox[0].target;
        assert RequestFor(TermEp(pending'[|pending|]), a);
      } else {
        assert RequestFor(handled[i - |Handled(s, false)|], a);
      }
    } else {
      var i :| 0 <= i < |pending| && RequestFor(TermEp(pending[i]), a);
      if i < |pending'| {
        assert pending'[i] == pending[i];
      }
    }
  }

  /** Every request is carried out: in a reading that no signal interrupts and that does
      not meet the stop, each handled or pending request for an address, however deeply
      nested, leaves that address unlisted. */
  lemma {:induction false} CarriedOut(s: Sock, poll: Poll, depth: nat, a: Addr)
    requires depth <= |s.ending| && Unsignalled(poll) && !ReadTo(s, poll, depth).sock.ctxTerminated
    requires RequestedFor(LogTo(s, poll, depth).handled, s.ending[depth..], a)
    ensures !Listed(ReadTo(s, poll, depth).sock.endpoints, a)
    decreases Work(s, poll)
  {
    var s1 := Arrive(s, Next(poll).arrived);
    ArriveFrame(s, Next(poll).arrived);
    if !Over(s1, false, depth) {
      var s2 := OneRecv(s1, false);
      var l := LogTo(s2, Rest(poll), depth);
      ReadFrame(s, poll, depth);
      HandledOrPending(s1, l.handled, depth, a);
      if RequestedFor(l.handled, s2.ending[depth..], a) {
        CarriedOut(s2, Rest(poll), depth, a);
      } else {
        ReturnUnlists(s1, a);
        StaysUnlisted(s2, Rest(poll), depth, a);
      }
    }
  }

  // ---- when commands arrive does not matter

  /** Commands still to come, and the promises of binds, are set aside meanwhile. */
  function Aside(s: Sock, mail: seq<Cmd>, promised: nat): Sock {
    s.(mailbox := mail, own := s.own.(promised := promised))
  }

  lemma CommandAside(s: Sock, cmd: Cmd, mail: seq<Cmd>, promised: nat)
    ensures ProcessCommand(Aside(s, mail, promised), cmd) == Aside(ProcessCommand(s, cmd), mail, promised)
  {
    var o := s.own.(promised := promised);
    match cmd
    case Bind(p) => assert AttachPipe(Aside(s, mail, promised), p) == Aside(AttachPipe(s, p), mail, promised);
    case Own(c) => assert ProcessOwn(o, c) == ProcessOwn(s.own, c).(promised := promised);
    case TermReq(c) => assert TermChild(o, c) == TermChild(s.own, c).(promised := promised);
    case TermAck(c) => assert ProcessTermAck(o, c) == ProcessTermAck(s.own, c).(promised := promised);
    case PipeTermAck(p) => assert UnregisterTermAck(o) == UnregisterTermAck(s.own).(promised := promised);
    case _ =>
  }

  lemma PostLater(s: Sock, cmd: Cmd)
    requires s.mailbox != []
    ensures Post(TakeOne(s), cmd) == TakeOne(Post(s, cmd))
  {
    var head, rest, promised := s.mailbox[0], s.mailbox[1..], Post(s, cmd).own.promised;
    var mid := s.(mailbox := rest);
    CommandFrame(mid, head);
    CommandAside(mid, head, rest + [cmd], promised);
    assert Post(s, cmd).mailbox[1..] == rest + [cmd];
    assert Post(s, cmd).(mailbox := rest + [cmd]) == Aside(mid, rest + [cmd], promised);
    assert Post(TakeOne(s), cmd) == Aside(ProcessCommand(mid, head), rest + [cmd], promised);
  }

  lemma {:induction false} ArriveLater(s: Sock, cmds: seq<Cmd>)
    requires s.mailbox != []
    ensures Arrive(TakeOne(s), cmds) == TakeOne(Arrive(s, cmds))
  {
    if cmds != [] {
      ArriveLater(s, cmds[..|cmds| - 1]);
      PostLater(Arrive(s, cmds[..|cmds| - 1]), cmds[|cmds| - 1]);
    }
  }

  lemma {:induction false} ArriveTwice(s: Sock, a: seq<Cmd>, b: seq<Cmd>)
    ensures Arrive(Arrive(s, a), b) == Arrive(s, a + b)
  {
    if b == [] {
      assert a + b == a;
    } else {
      ArriveTwice(s, a, b[..|b| - 1]);
      assert (a + b)[..|a + b| - 1] == a + b[..|b| - 1];
    }
  }

  lemma {:induction false} TakeFirst(s: Sock, k: nat)
    requires s.mailbox != []
    ensures Take(s, k + 1) == Take(TakeOne(s), k)
  {
    if k > 0 {
      TakeFirst(s, k - 1);
    } else {
      assert Take(s, 0) == s;
    }
  }

  function Ended(s: Sock, errno: Errno): Sock {
    if errno == EAGAIN then s.(undrained := 0) else s
  }

  /** With no term_endpoint command among them, the commands have been processed one
      after the other as if they all had been there at the start. */
  lemma {:induction false} ReadIsTake(s: Sock, poll: Poll, depth: nat, l: Log, r: Read)
    requires depth == |s.ending| && l == LogTo(s, poll, depth) && r == ReadTo(s, poll, depth)
    requires forall i :: 0 <= i < |l.handled| ==> !l.handled[i].TermEp?
    ensures Sequential(s, l, r)
    decreases Work(s, poll)
  {
    if Over(Arrive(s, Next(poll).arrived), Next(poll).signal, depth) {
      ReadNothing(s, poll, depth);
    } else {
      var s2, rest := ReadFirst(s, poll, depth);
      ReadIsTake(s2, Rest(poll), depth, rest, r);
      OneMore(s, Next(poll).arrived, s2, rest, l, r);
    }
  }

  ghost predicate Sequential(s: Sock, l: Log, r: Read) {
    r.sock == Ended(Take(Arrive(s, l.came), |l.handled|), r.errno)
  }

  lemma OneMore(s: Sock, first: seq<Cmd>, s2: Sock, rest: Log, l: Log, r: Read)
    requires Arrive(s, first).mailbox != [] && s2 == TakeOne(Arrive(s, first))
    requires |l.handled| == |rest.handled| + 1 && l.came == first + rest.came && Sequential(s2, rest, r)
    ensures Sequential(s, l, r)
  {
    TakeArrived(s, first, s2, rest.came, |rest.handled|);
  }

  lemma ReadNothing(s: Sock, poll: Poll, depth: nat)
    requires depth == |s.ending| && Over(Arrive(s, Next(poll).arrived), Next(poll).signal, depth)
    ensures LogTo(s, poll, depth) == Log([], Next(poll).arrived, {})
    ensures Sequential(s, LogTo(s, poll, depth), ReadTo(s, poll, depth))
  {
  }

  lemma ReadFirst(s: Sock, poll: Poll, depth: nat) returns (s2: Sock, rest: Log)
    requires depth == |s.ending| && !Over(Arrive(s, Next(poll).arrived), Next(poll).signal, depth)
    requires !LogTo(s, poll, depth).handled[0].TermEp?
    ensures Arrive(s, Next(poll).arrived).mailbox != [] && s2 == TakeOne(Arrive(s, Next(poll).arrived))
    ensures |s2.ending| == depth && Work(s2, Rest(poll)) < Work(s, poll)
    ensures rest == LogTo(s2, Rest(poll), depth) && ReadTo(s, poll, depth) == ReadTo(s2, Rest(poll), depth)
    ensures var l := LogTo(s, poll, depth);
            && |l.handled| == |rest.handled| + 1 && l.came == Next(poll).arrived + rest.came
            && forall i :: 0 <= i < |rest.handled| ==> rest.handled[i] == l.handled[i + 1]
  {
    s2 := TakeOne(Arrive(s, Next(poll).arrived));
    rest := LogTo(s2, Rest(poll), depth);
  }

  lemma TakeArrived(s: Sock, first: seq<Cmd>, s2: Sock, more: seq<Cmd>, k: nat)
    requires Arrive(s, first).mailbox != [] && s2 == TakeOne(Arrive(s, first))
    ensures Take(Arrive(s2, more), k) == Take(Arrive(s, first + more), k + 1)
  {
    ArriveLater(Arrive(s, first), more);
    ArriveTwice(s, first, more);
    TakeFirst(Arrive(s, first + more), k);
  }
}
