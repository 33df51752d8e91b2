/** A closed socket can always be got rid of: once the connects under way towards it are
    through and the library's acks have come, the reaper deallocates it. */
module Reaping {
  import opened Wrappers
  import opened SocketState
  import opened Mailbox
  import opened Inproc

  ghost predicate Goes(w: World, acts: seq<Action>, w': World) {
    w' == Run(w, acts) && WorldInv(w')
  }

  lemma {:induction false} RunAppend(w: World, acts: seq<Action>, more: seq<Action>)
    ensures Run(w, acts + more) == Run(Run(w, acts), more)
  {
    if more == [] {
      assert acts + more == acts;
    } else {
      assert (acts + more)[..|acts + more| - 1] == acts + more[..|more| - 1];
      RunAppend(w, acts, more[..|more| - 1]);
    }
  }

  lemma GoesOne(w: World, a: Action)
    requires WorldInv(w)
    ensures Goes(w, [a], Step(w, a))
  {
    assert [a][..0] == [] && Run(w, []) == w;
    StepKeepsWorld(w, a);
  }

  lemma GoesOn(w: World, acts: seq<Action>, mid: World, more: seq<Action>, w': World)
    requires Goes(w, acts, mid) && Goes(mid, more, w')
    ensures Goes(w, acts + more, w')
  {
    RunAppend(w, acts, more);
  }

  /** The reaper has u. */
  ghost predicate Closing(w: World, u: nat) {
    u < |w.members| && w.members[u].closing
  }

  ghost predicate Reaped(w: World, u: nat) {
    Closing(w, u) && w.members[u].reaped == 1
  }

  // ---- the connects under way

  lemma SomeoneConnecting(ms: seq<Member>, u: nat) returns (v: nat)
    requires Promises(ms, u) > 0
    ensures v < |ms| && ms[v].connecting == Some(u)
  {
    NoneConnecting(ms, u);
    v :| 0 <= v < |ms| && ms[v].connecting == Some(u);
  }

  lemma OneBound(w: World, u: nat, v: nat, addr: Addr)
    requires WorldInv(w) && Closing(w, u) && v < |w.members| && w.members[v].connecting == Some(u)
    ensures var w' := Step(w, SendBind(v, addr));
            Closing(w', u) && Promises(w'.members, u) == Promises(w.members, u) - 1
  {
    assert MemberOk(w, v) && MemberOk(w, u);
    var t := w.members[u].(sock := Post(w.members[u].sock, Bind(w.next)));
    var w1 := BindSent(w, v, u);
    PromisesUpdate(w.members, u, t, u);
    PromisesUpdate(w.members[u := t], v, w1.members[v], u);
    PromisesUpdate(w1.members, v, Step(w, SendBind(v, addr)).members[v], u);
  }

  lemma {:induction false} ConnectsThrough(w: World, u: nat) returns (acts: seq<Action>, w': World)
    requires WorldInv(w) && Closing(w, u)
    ensures Goes(w, acts, w') && Closing(w', u) && Promises(w'.members, u) == 0
    decreases Promises(w.members, u)
  {
    acts, w' := [], w;
    if Promises(w.members, u) > 0 {
      var v := SomeoneConnecting(w.members, u);
      OneBound(w, u, v, "");
      GoesOne(w, SendBind(v, ""));
      var mid := Step(w, SendBind(v, ""));
      acts, w' := ConnectsThrough(mid, u);
      GoesOn(w, [SendBind(v, "")], mid, acts, w');
      acts := [SendBind(v, "")] + acts;
    }
  }

  // ---- the mailbox

  /** Nobody is about to bind to it. */
  ghost predicate Alone(w: World, u: nat) {
    Closing(w, u) && Promises(w.members, u) == 0
  }

  /** The reaper has read all there was. */
  ghost predicate AtRest(w: World, u: nat) {
    Alone(w, u) && w.members[u].phase != Reading && w.members[u].sock.mailbox == []
  }

  lemma RecvAlone(w: World, u: nat)
    requires WorldInv(w) && Alone(w, u) && w.members[u].reaped == 0
    ensures var w', s := Step(w, Recv(u, false)), w.members[u].sock;
            && Alone(w', u)
            && (if Fails(s, false) && s.ending == [] then AtRest(w', u)
                else 2 * |w'.members[u].sock.mailbox| + |w'.members[u].sock.ending| < 2 * |s.mailbox| + |s.ending|)
  {
    assert MemberOk(w, u);
    var w' := Step(w, Recv(u, false));
    PromisesUpdate(w.members, u, w'.members[u], u);
  }

  lemma {:induction false} ReadAll(w: World, u: nat) returns (acts: seq<Action>, w': World)
    requires WorldInv(w) && Alone(w, u)
    ensures Goes(w, acts, w') && (Reaped(w', u) || AtRest(w', u))
    decreases 2 * |w.members[u].sock.mailbox| + |w.members[u].sock.ending|
  {
    acts, w' := [], w;
    assert MemberOk(w, u);
    if !Reaped(w, u) && !AtRest(w, u) {
      RecvAlone(w, u);
      GoesOne(w, Recv(u, false));
      var mid := Step(w, Recv(u, false));
      acts, w' := [Recv(u, false)], mid;
      if !AtRest(mid, u) {
        var more;
        more, w' := ReadAll(mid, u);
        GoesOn(w, acts, mid, more, w');
        acts := acts + more;
      }
    }
  }

  // ---- the acks

  /** What the socket waits for. */
  ghost function Outstanding(s: Sock): nat {
    |s.own.waiting| + |s.pipes|
  }

  /** Nothing else can hold it. */
  lemma WaitsForAck(w: World, u: nat)
    requires WorldInv(w) && AtRest(w, u) && !Reaped(w, u)
    ensures Outstanding(w.members[u].sock) > 0
  {
    assert MemberOk(w, u);
  }

  /** An ack that is owed. */
  lemma OwedAck(s: Sock) returns (cmd: Cmd)
    requires SockInv(s) && s.mailbox == [] && Outstanding(s) > 0
    ensures PostOk(s, cmd) && (cmd.TermAck? || cmd.PipeTermAck?)
  {
    if s.pipes != [] {
      cmd := PipeTermAck(s.pipes[0]);
    } else {
      var c :| c in s.own.waiting;
      cmd := TermAck(c);
    }
  }

  lemma AckCounts(s: Sock, cmd: Cmd)
    requires SockInv(s) && s.mailbox == [] && s.ending == [] && PostOk(s, cmd) && (cmd.TermAck? || cmd.PipeTermAck?)
    ensures var s' := TakeOne(Post(s, cmd));
            Outstanding(s') == Outstanding(s) - 1 && s'.mailbox == [] && s'.ending == []
  {
    assert Post(s, cmd).mailbox == [cmd] && [cmd][1..] == [];
    if cmd.PipeTermAck? {
      RemoveOne(s.pipes, cmd.pipe);
    }
  }

  /** One ack comes and is read. */
  lemma AckRead(w: World, u: nat, cmd: Cmd) returns (acts: seq<Action>, w': World)
    requires WorldInv(w) && AtRest(w, u) && w.members[u].reaped == 0
    requires PostOk(w.members[u].sock, cmd) && (cmd.TermAck? || cmd.PipeTermAck?)
    ensures Goes(w, acts, w') && AtRest(w', u) && Outstanding(w'.members[u].sock) == Outstanding(w.members[u].sock) - 1
  {
    assert MemberOk(w, u);
    AckCounts(w.members[u].sock, cmd);
    var w1 := Step(w, Arrives(u, cmd));
    PromisesUpdate(w.members, u, w1.members[u], u);
    GoesOne(w, Arrives(u, cmd));
    var w2 := Step(w1, Recv(u, false));
    RecvAlone(w1, u);
    GoesOne(w1, Recv(u, false));
    assert MemberOk(w2, u);
    w' := Step(w2, Recv(u, false));
    RecvAlone(w2, u);
    GoesOne(w2, Recv(u, false));
    GoesOn(w, [Arrives(u, cmd)], w1, [Recv(u, false)], w2);
    GoesOn(w, [Arrives(u, cmd)] + [Recv(u, false)], w2, [Recv(u, false)], w');
    acts := [Arrives(u, cmd)] + [Recv(u, false)] + [Recv(u, false)];
  }

  lemma {:induction false} AcksCome(w: World, u: nat) returns (acts: seq<Action>, w': World)
    requires WorldInv(w) && AtRest(w, u)
    ensures Goes(w, acts, w') && Reaped(w', u)
    decreases Outstanding(w.members[u].sock)
  {
    acts, w' := [], w;
    assert MemberOk(w, u);
    if !Reaped(w, u) {
      WaitsForAck(w, u);
      var cmd := OwedAck(w.members[u].sock);
      var mid, more;
      acts, mid := AckRead(w, u, cmd);
      more, w' := AcksCome(mid, u);
      GoesOn(w, acts, mid, more, w');
      acts := acts + more;
    }
  }

  /** From every reachable state with u closing, some continuation -- the connects under
      way finish, the reaper reads, children and pipes acknowledge -- deallocates u. */
  lemma CanBeReaped(opts: seq<Options>, acts: seq<Action>, w: World, u: nat) returns (more: seq<Action>)
    requires w == Inproc.Run(Start(opts), acts) && Closing(w, u)
    ensures Reaped(Inproc.Run(w, more), u)
  {
    WorldReachable(opts, acts);
    var a1, w1 := ConnectsThrough(w, u);
    var a2, w2 := ReadAll(w1, u);
    GoesOn(w, a1, w1, a2, w2);
    more := a1 + a2;
    if !Reaped(w2, u) {
      var a3, w3 := AcksCome(w2, u);
      GoesOn(w, a1 + a2, w2, a3, w3);
      more := a1 + a2 + a3;
    }
  }
}
