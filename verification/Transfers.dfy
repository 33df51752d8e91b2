/** What send and recv make of the mailbox, and which error each of their endings gives. */
module Transfers {
  import opened SocketState
  import opened Mailbox
  import opened SocketCalls
  import opened SocketIO

  // ---- every wait reads the mailbox

  /** The socket after the readings of these turns, one after the other. */
  function ReadThrough(s: Sock, wakes: seq<Wake>): Sock
    decreases |wakes|
  {
    if wakes == [] then s else ReadThrough(Drain(s, wakes[0].poll).0, wakes[1..])
  }

  /** What the last of the readings answers. */
  function LastReading(s: Sock, wakes: seq<Wake>): Rc
    decreases |wakes|
  {
    if wakes == [] then Ok
    else if |wakes| == 1 then Drain(s, wakes[0].poll).1
    else LastReading(Drain(s, wakes[0].poll).0, wakes[1..])
  }

  /** One reading of the mailbox per wait and nothing else happens to the socket; the loop
      ends with what a reading answers iff that is not success; and only after all the turns
      it was given, each with "again", is it still waiting. */
  ghost predicate Reads(s: Sock, wakes: seq<Wake>, t: Trace) {
    && |t.waits| <= |wakes| && t.sock == ReadThrough(s, wakes[..|t.waits|])
    && (t.outcome == Waiting ==> |t.answers| == |t.waits| == |wakes|)
    && var rc := LastReading(s, wakes[..|t.waits|]);
       if rc == Ok then |t.answers| == |t.waits| && (t.outcome.Failed? ==> t.outcome.errno == EAGAIN || t.outcome.errno == OTHER)
       else |t.answers| == |t.waits| - 1 && t.outcome == Failed(rc.errno)
  }

  lemma OneMoreRead(s: Sock, wakes: seq<Wake>, rest: Trace, t: Trace)
    requires wakes != [] && Drain(s, wakes[0].poll).1 == Ok
    requires Reads(Drain(s, wakes[0].poll).0, wakes[1..], rest)
    requires t.sock == rest.sock && t.outcome == rest.outcome && |t.waits| == |rest.waits| + 1 && |t.answers| == |rest.answers| + 1
    ensures Reads(s, wakes, t)
  {
    var used := wakes[..|t.waits|];
    assert used[1..] == wakes[1..][..|rest.waits|];
  }

  lemma {:induction false} LoopReads(s: Sock, timeout: int, end: nat, block: bool, wakes: seq<Wake>, t: Trace)
    requires t == Loop(s, timeout, end, block, wakes)
    ensures Reads(s, wakes, t)
    decreases |wakes|
  {
    if wakes != [] {
      DrainFrame(s, wakes[0].poll);
      var (s1, rc) := Drain(s, wakes[0].poll);
      var next := if timeout > 0 then Left(end, wakes[0].now) else timeout;
      assert wakes[..1] == [wakes[0]] && wakes[..1][1..] == [];
      if rc == Ok && wakes[0].x == Again && !(timeout > 0 && next <= 0) {
        var rest := Loop(s1, next, end, true, wakes[1..]);
        LoopReads(s1, next, end, true, wakes[1..], rest);
        OneMoreRead(s, wakes, rest, t);
      }
    }
  }

  // ---- send

  /** How a call on a valid message can end: ETERM only after a stop, EAGAIN and still waiting
      only after the answer "again", and not waiting when it must not block. */
  ghost predicate Ends(t: Trace, atOnce: bool) {
    && (t.outcome == Failed(ETERM) ==> t.sock.ctxTerminated)
    && (t.outcome == Failed(EAGAIN) || t.outcome == Waiting ==> t.answers != [] && t.answers[|t.answers| - 1] == Again)
    && (t.outcome.Failed? ==> t.outcome.errno in {ETERM, EINTR, EAGAIN, OTHER})
    && (t.outcome == Waiting ==> !atOnce)
  }

  lemma LoopEnds(s: Sock, timeout: int, end: nat, block: bool, wakes: seq<Wake>, l: Trace, t: Trace)
    requires !s.ctxTerminated && l == Loop(s, timeout, end, block, wakes)
    requires t == Answered(Again, l)
    ensures Ends(t, false)
  {
    LoopKeeps(s, timeout, end, block, wakes, l);
    LoopReads(s, timeout, end, block, wakes, l);
    LoopAsks(s, timeout, end, block, wakes, l);
    RcOfReading(s, wakes[..|l.waits|]);
  }

  lemma {:induction false} RcOfReading(s: Sock, wakes: seq<Wake>)
    ensures var rc := LastReading(s, wakes); rc == Ok || rc == Err(ETERM) || rc == Err(EINTR)
    decreases |wakes|
  {
    if wakes != [] {
      DrainFrame(s, wakes[0].poll);
      RcOfReading(Drain(s, wakes[0].poll).0, wakes[1..]);
    }
  }

  /** send in every case: what it does to the socket are its first reading and one reading
      per wait, and its error says how it ended. */
  lemma SendExact(s: Sock, valid: bool, dontWait: bool, tsc: nat, poll: Poll, x: XResult, start: nat, wakes: seq<Wake>, t: Trace)
    requires t == Send(s, valid, dontWait, tsc, poll, x, start, wakes)
    ensures if s.ctxTerminated || !valid then t == Trace(s, Failed(if s.ctxTerminated then ETERM else EFAULT), [], [])
            else
              var (s1, rc) := ProcessCommands(s, 0, true, tsc, poll);
              && Ends(t, dontWait || s.opts.sndtimeo == 0)
              && |t.waits| <= |wakes| && t.sock == ReadThrough(s1, wakes[..|t.waits|])
              && (rc != Ok ==> t == Trace(s1, Failed(rc.errno), [], []))
              && (rc == Ok ==> t.answers != [])
  {
    if !s.ctxTerminated && valid {
      SendPolls(s, tsc, poll);
      var (s1, rc) := ProcessCommands(s, 0, true, tsc, poll);
      if rc == Err(ETERM) {
        DrainFrame(s, poll);
        DrainFrame(s.(lastTsc := tsc), poll);
      }
      if rc == Ok && x == Again && !dontWait && s.opts.sndtimeo != 0 {
        var end := End(s.opts.sndtimeo, start);
        var l := Loop(s1, s.opts.sndtimeo, end, true, wakes);
        LoopEnds(s1, s.opts.sndtimeo, end, true, wakes, l, t);
        LoopReads(s1, s.opts.sndtimeo, end, true, wakes, l);
      }
    }
  }

  // ---- recv

  /** The readings of a recv after its poll, s1 being the socket then. */
  function Later(s1: Sock, c: RecvCall, waits: nat): Sock
    requires waits <= |c.wakes|
  {
    if c.x != Again then s1
    else if c.dontWait || s1.opts.rcvtimeo == 0 then Drain(s1, c.poll2).0
    else ReadThrough(s1, c.wakes[..waits])
  }

  /** The counters aside, nothing happens to the socket. */
  ghost predicate SameButCounts(s: Sock, s': Sock) {
    s' == s.(ticks := s'.ticks, undrained := s'.undrained)
  }

  lemma NowExact(s: Sock, c: RecvCall, t: Trace)
    requires !s.ctxTerminated && t == RecvNow(s, c)
    ensures var (s2, rc) := Drain(s, c.poll2);
            && SameButCounts(s2, t.sock) && t.waits == [] && t.outcome != Waiting
            && t.sock.ticks == (if rc == Ok then 0 else s.ticks)
            && t.sock.undrained == s2.undrained + (if t.outcome == Done then 1 else 0)
            && (rc != Ok ==> t.outcome == Failed(rc.errno) && t.answers == [])
            && (rc == Ok ==> t.answers == [c.x2] && (t.outcome == Failed(EAGAIN) <==> c.x2 == Again))
            && Ends(Answered(Again, t), true)
  {
    DrainFrame(s, c.poll2);
  }

  lemma BlockingExact(s: Sock, c: RecvCall, t: Trace)
    requires !s.ctxTerminated && t == RecvBlocking(s, c)
    ensures |t.waits| <= |c.wakes| && SameButCounts(ReadThrough(s, c.wakes[..|t.waits|]), t.sock)
    ensures t.sock.ticks == if t.outcome == Done then 0 else s.ticks
    ensures t.sock.undrained == ReadThrough(s, c.wakes[..|t.waits|]).undrained + if t.outcome == Done then 1 else 0
    ensures Ends(Answered(Again, t), false)
  {
    var end := End(s.opts.rcvtimeo, c.start);
    var l := Loop(s, s.opts.rcvtimeo, end, s.ticks != 0, c.wakes);
    LoopEnds(s, s.opts.rcvtimeo, end, s.ticks != 0, c.wakes, l, Answered(Again, l));
    LoopReads(s, s.opts.rcvtimeo, end, s.ticks != 0, c.wakes, l);
    LoopKeeps(s, s.opts.rcvtimeo, end, s.ticks != 0, c.wakes, l);
  }

  ghost predicate RecvCounts(s1: Sock, c: RecvCall, t: Trace)
    requires |t.waits| <= |c.wakes|
  {
    var last := Later(s1, c, |t.waits|);
    && SameButCounts(last, t.sock)
    && t.sock.undrained == last.undrained + (if t.outcome == Done then 1 else 0)
    && t.sock.ticks == if c.x == Again && (if c.dontWait || s1.opts.rcvtimeo == 0 then Drain(s1, c.poll2).1 == Ok else t.outcome == Done)
                       then 0 else s1.ticks
  }

  /** The poll of recv: the mailbox is read exactly when ticks reaches the rate. */
  ghost predicate Polls(s: Sock, c: RecvCall, s1: Sock, rc: Rc) {
    var s0 := s.(ticks := s.ticks + 1);
    if s0.ticks != s.opts.inboundPollRate then s1 == s0 && rc == Ok
    else rc == Drain(s0, c.poll).1 && s1 == Drain(s0, c.poll).0.(ticks := if rc == Ok then 0 else s0.ticks)
  }

  lemma TickPollExact(s: Sock, c: RecvCall)
    ensures Polls(s, c, TickPoll(s, c).0, TickPoll(s, c).1)
  {
    DrainFrame(s.(ticks := s.ticks + 1), c.poll);
  }

  /** recv in every case: its poll and the readings after it are all it does to the socket,
      but for the counters; ticks goes back when a second reading at once succeeds, or a
      wait ends with a message; one message is counted iff it succeeds; and its error says
      how it ended. */
  lemma RecvExact(s: Sock, c: RecvCall, t: Trace)
    requires t == Recv(s, c)
    ensures if s.ctxTerminated || !c.valid then t == Trace(s, Failed(if s.ctxTerminated then ETERM else EFAULT), [], [])
            else
              var (s1, rc) := TickPoll(s, c);
              && Polls(s, c, s1, rc) && |t.waits| <= |c.wakes|
              && Ends(t, c.dontWait || s.opts.rcvtimeo == 0)
              && (rc != Ok ==> t == Trace(s1, Failed(rc.errno), [], []))
              && (rc == Ok ==> t.answers != [] && RecvCounts(s1, c, t))
  {
    if !s.ctxTerminated && c.valid {
      TickPollFrame(s, c);
      TickPollExact(s, c);
      var (s1, rc) := TickPoll(s, c);
      if rc == Ok && c.x == Again {
        if c.dontWait || s.opts.rcvtimeo == 0 {
          NowExact(s1, c, RecvNow(s1, c));
        } else {
          BlockingExact(s1, c, RecvBlocking(s1, c));
        }
      }
    }
  }

  // ---- "again" is EAGAIN

  ghost predicate Quiet(wakes: seq<Wake>) {
    forall i :: 0 <= i < |wakes| ==> Unsignalled(wakes[i].poll)
  }

  lemma {:induction false} QuietReading(s: Sock, wakes: seq<Wake>)
    requires Quiet(wakes)
    ensures LastReading(s, wakes) != Err(EINTR)
    decreases |wakes|
  {
    if wakes != [] {
      assert Unsignalled(wakes[0].poll);
      UnsignalledEnds(s, wakes[0].poll, |s.ending|);
      QuietReading(Drain(s, wakes[0].poll).0, wakes[1..]);
    }
  }

  /** The loop fails with EINTR only when a signal came. */
  lemma QuietLoop(s: Sock, timeout: int, end: nat, block: bool, wakes: seq<Wake>, t: Trace)
    requires Quiet(wakes) && t == Loop(s, timeout, end, block, wakes)
    ensures t.outcome != Failed(EINTR)
  {
    LoopReads(s, timeout, end, block, wakes, t);
    QuietReading(s, wakes[..|t.waits|]);
  }

  /** A send that no signal and no stop meets, and whose last answer is "again", fails with
      EAGAIN -- or is still waiting, which one that must not block never is. */
  lemma SendAgain(s: Sock, valid: bool, dontWait: bool, tsc: nat, poll: Poll, x: XResult, start: nat, wakes: seq<Wake>, t: Trace)
    requires t == Send(s, valid, dontWait, tsc, poll, x, start, wakes)
    requires Unsignalled(poll) && Quiet(wakes) && !t.sock.ctxTerminated && valid
    ensures t.answers != []
    ensures t.answers[|t.answers| - 1] == Again <==> t.outcome == Failed(EAGAIN) || t.outcome == Waiting
    ensures t.outcome == Waiting ==> !dontWait && s.opts.sndtimeo != 0
  {
    SendExact(s, valid, dontWait, tsc, poll, x, start, wakes, t);
    SendTransfers(s, valid, dontWait, tsc, poll, x, start, wakes, t);
    if !s.ctxTerminated {
      UnsignalledEnds(s, poll, |s.ending|);
      UnsignalledEnds(s.(lastTsc := tsc), poll, |s.ending|);
      var (s1, rc) := ProcessCommands(s, 0, true, tsc, poll);
      if rc == Ok && x == Again && !dontWait && s.opts.sndtimeo != 0 {
        QuietLoop(s1, s.opts.sndtimeo, End(s.opts.sndtimeo, start), true, wakes,
                  Loop(s1, s.opts.sndtimeo, End(s.opts.sndtimeo, start), true, wakes));
      }
    }
  }

  lemma LaterQuiet(s: Sock, c: RecvCall)
    requires Unsignalled(c.poll2) && Quiet(c.wakes)
    ensures RecvNow(s, c).outcome != Failed(EINTR) && RecvBlocking(s, c).outcome != Failed(EINTR)
  {
    UnsignalledEnds(s, c.poll2, |s.ending|);
    var end := End(s.opts.rcvtimeo, c.start);
    QuietLoop(s, s.opts.rcvtimeo, end, s.ticks != 0, c.wakes, Loop(s, s.opts.rcvtimeo, end, s.ticks != 0, c.wakes));
  }

  /** The same for recv. */
  lemma RecvAgain(s: Sock, c: RecvCall, t: Trace)
    requires t == Recv(s, c)
    requires Unsignalled(c.poll) && Unsignalled(c.poll2) && Quiet(c.wakes) && !t.sock.ctxTerminated && c.valid
    ensures t.answers != []
    ensures t.answers[|t.answers| - 1] == Again <==> t.outcome == Failed(EAGAIN) || t.outcome == Waiting
    ensures t.outcome == Waiting ==> !c.dontWait && s.opts.rcvtimeo != 0
  {
    RecvExact(s, c, t);
    RecvTransfers(s, c, t);
    if !s.ctxTerminated {
      TickPollFrame(s, c);
      UnsignalledEnds(s.(ticks := s.ticks + 1), c.poll, |s.ending|);
      var (s1, rc) := TickPoll(s, c);
      if rc == Ok && c.x == Again {
        LaterQuiet(s1, c);
      }
    }
  }

  // ---- calls without a deadline

  /** A send with a negative timeout waits without bound in every turn, and never gives
      EAGAIN. */
  lemma SendForever(s: Sock, tsc: nat, poll: Poll, x: XResult, start: nat, wakes: seq<Wake>, t: Trace)
    requires s.opts.sndtimeo < 0 && t == Send(s, true, false, tsc, poll, x, start, wakes)
    ensures t.outcome != Failed(EAGAIN) && forall i :: 0 <= i < |t.waits| ==> t.waits[i] == s.opts.sndtimeo
  {
    if !s.ctxTerminated {
      SendPolls(s, tsc, poll);
      var s1, end := ProcessCommands(s, 0, true, tsc, poll).0, End(s.opts.sndtimeo, start);
      LoopForever(s1, s.opts.sndtimeo, end, wakes, Loop(s1, s.opts.sndtimeo, end, true, wakes));
    }
  }

  lemma LoopForeverFrom(s: Sock, timeout: int, end: nat, block: bool, wakes: seq<Wake>, t: Trace)
    requires timeout < 0 && t == Loop(s, timeout, end, block, wakes)
    ensures t.outcome != Failed(EAGAIN)
    ensures forall i :: 0 <= i < |t.waits| ==> t.waits[i] == if i == 0 && !block then 0 else timeout
  {
    if block {
      LoopForever(s, timeout, end, wakes, t);
    } else if wakes != [] {
      DrainFrame(s, wakes[0].poll);
      var s1 := Drain(s, wakes[0].poll).0;
      LoopForever(s1, timeout, end, wakes[1..], Loop(s1, timeout, end, true, wakes[1..]));
    }
  }

  /** Nor does such a recv; only a first turn right after a poll does not wait. */
  lemma RecvForever(s: Sock, c: RecvCall, t: Trace)
    requires s.opts.rcvtimeo < 0 && !c.dontWait && t == Recv(s, c)
    ensures t.outcome != Failed(EAGAIN)
    ensures forall i :: 0 <= i < |t.waits| ==>
              t.waits[i] == if i == 0 && s.ticks + 1 == s.opts.inboundPollRate then 0 else s.opts.rcvtimeo
  {
    if !s.ctxTerminated && c.valid {
      TickPollFrame(s, c);
      var s1 := TickPoll(s, c).0;
      var end := End(s1.opts.rcvtimeo, c.start);
      LoopForeverFrom(s1, s1.opts.rcvtimeo, end, s1.ticks != 0, c.wakes, Loop(s1, s1.opts.rcvtimeo, end, s1.ticks != 0, c.wakes));
    }
  }
}
