/** send and recv of socket_base.cpp: the blocking loops with their deadline
    arithmetic, and recv's own way of polling for commands. */
module SocketIO {
  import opened SocketState
  import opened Mailbox
  import opened SocketCalls

  // ---- the environment of a call

  /** What xsend or xrecv of the socket type answers. */
  datatype XResult = Accepted | Again | Refused

  /** One turn of a blocking loop: what the mailbox yields during the wait, what
      xsend/xrecv answers then, and the clock after that. */
  datatype Wake = Wake(poll: Poll, x: XResult, now: nat)

  datatype Outcome =
    | Done
    | Failed(errno: Errno)
    | Waiting              // still in the loop when the given turns are over

  /** `waits` are the timeouts the loop passed to process_commands, `answers` what
      xsend or xrecv said each time it was asked. */
  datatype Trace = Trace(sock: Sock, outcome: Outcome, waits: seq<int>, answers: seq<XResult>)

  // ---- deadline arithmetic

  const TWO31 := 0x8000_0000
  const TWO32 := 0x1_0000_0000
  const TWO64 := 0x1_0000_0000_0000_0000

  /** (int)(end - now) on uint64_t. */
  function Left(end: nat, now: nat): int {
    var d := (end - now) % TWO64;
    var low := d % TWO32;
    if low < TWO31 then low else low - TWO32
  }

  /** The cast gives the true difference exactly on the range of int. */
  lemma LeftExact(end: nat, now: nat)
    requires end < TWO64 && now < TWO64
    ensures Left(end, now) == end - now <==> -TWO31 <= end - now < TWO31
  {
    var x := end - now;
    var q, r := x / TWO32, x % TWO32;
    assert x == TWO32 * q + r;
    var d := x % TWO64;
    assert d == if x < 0 then x + TWO64 else x;
    assert d % TWO32 == r by {
      assert d == TWO32 * (if x < 0 then q + TWO32 else q) + r;
    }
  }

  /** A clock reading past the deadline that the cast takes for one before it: from
      2^31 ms on, every second stretch of that length. */
  predicate Missed(end: nat, now: nat) {
    now >= end && (now - end) % TWO32 > TWO31
  }

  lemma LowBits(d: int, q: int, r: int)
    requires d == TWO32 * q + r && 0 <= r < TWO32
    ensures d % TWO32 == r
  {
  }

  /** Before the deadline the cast gives the time left, and past it a number that is
      not positive iff the reading is not a missed one. */
  lemma LeftSign(end: nat, now: nat)
    requires end < TWO64 && now < TWO64 && end - now < TWO31
    ensures now < end ==> Left(end, now) == end - now
    ensures now >= end ==> (Left(end, now) <= 0 <==> !Missed(end, now))
  {
    if now < end {
      LeftExact(end, now);
    } else {
      var late := now - end;
      var q, r := late / TWO32, late % TWO32;
      var d := (end - now) % TWO64;
      assert late == TWO32 * q + r;
      assert d == if late == 0 then 0 else TWO64 - late;
      if late == 0 {
        LowBits(d, 0, 0);
      } else if r == 0 {
        LowBits(d, TWO32 - q, 0);
      } else {
        LowBits(d, TWO32 - q - 1, TWO32 - r);
      }
    }
  }

  // ---- the blocking loop

  /** `block` is false only in recv's first turn after a poll. */
  function Loop(s: Sock, timeout: int, end: nat, block: bool, wakes: seq<Wake>): Trace
    decreases |wakes|
  {
    if wakes == [] then Trace(s, Waiting, [], []) else
      var w := wakes[0];
      var wait := if block then timeout else 0;
      var (s1, rc) := ProcessCommands(s, wait, false, 0, w.poll);
      if rc != Ok then Trace(s1, Failed(rc.errno), [wait], [])
      else if w.x == Accepted then Trace(s1, Done, [wait], [w.x])
      else if w.x == Refused then Trace(s1, Failed(OTHER), [wait], [w.x])
      else
        var timeout' := if timeout > 0 then Left(end, w.now) else timeout;
        if timeout > 0 && timeout' <= 0 then Trace(s1, Failed(EAGAIN), [wait], [w.x])
        else
          var rest := Loop(s1, timeout', end, true, wakes[1..]);
          rest.(waits := [wait] + rest.waits, answers := [w.x] + rest.answers)
  }

  function End(timeout: int, start: nat): nat {
    if timeout < 0 then 0 else (start + timeout) % TWO64
  }

  function Send(s: Sock, valid: bool, dontWait: bool, tsc: nat, poll: Poll, x: XResult, start: nat, wakes: seq<Wake>): Trace {
    if s.ctxTerminated then Trace(s, Failed(ETERM), [], [])
    else if !valid then Trace(s, Failed(EFAULT), [], [])
    else
      var (s1, rc) := ProcessCommands(s, 0, true, tsc, poll);
      if rc != Ok then Trace(s1, Failed(rc.errno), [], [])
      else if x == Accepted then Trace(s1, Done, [], [x])
      else if x == Refused then Trace(s1, Failed(OTHER), [], [x])
      else if dontWait || s.opts.sndtimeo == 0 then Trace(s1, Failed(EAGAIN), [], [x])
      else Answered(x, Loop(s1, s.opts.sndtimeo, End(s.opts.sndtimeo, start), true, wakes))
  }

  /** x was the answer before those of t. */
  function Answered(x: XResult, t: Trace): Trace {
    t.(answers := [x] + t.answers)
  }

  /** A message handed to the application. */
  function Fetched(s: Sock): Sock {
    s.(undrained := s.undrained + 1)
  }

  /** Everything a recv call meets: the poll every inboundPollRate calls, the first
      xrecv, the poll and second xrecv of a non-blocking call, the clock and the
      turns of the blocking loop. */
  datatype RecvCall = RecvCall(valid: bool, dontWait: bool, poll: Poll, x: XResult, poll2: Poll, x2: XResult,
                               start: nat, wakes: seq<Wake>)

  function TickPoll(s: Sock, c: RecvCall): (Sock, Rc) {
    var s0 := s.(ticks := s.ticks + 1);
    if s0.ticks == s.opts.inboundPollRate then
      var (s1, rc) := ProcessCommands(s0, 0, false, 0, c.poll);
      (if rc == Ok then s1.(ticks := 0) else s1, rc)
    else (s0, Ok)
  }

  function Recv(s: Sock, c: RecvCall): Trace {
    if s.ctxTerminated then Trace(s, Failed(ETERM), [], [])
    else if !c.valid then Trace(s, Failed(EFAULT), [], [])
    else
      var (s1, rc) := TickPoll(s, c);
      if rc != Ok then Trace(s1, Failed(rc.errno), [], [])
      else if c.x == Refused then Trace(s1, Failed(OTHER), [], [c.x])
      else if c.x == Accepted then Trace(Fetched(s1), Done, [], [c.x])
      else if c.dontWait || s1.opts.rcvtimeo == 0 then Answered(c.x, RecvNow(s1, c))
      else Answered(c.x, RecvBlocking(s1, c))
  }

  function RecvBlocking(s: Sock, c: RecvCall): Trace {
    var t := Loop(s, s.opts.rcvtimeo, End(s.opts.rcvtimeo, c.start), s.ticks != 0, c.wakes);
    if t.outcome == Done then t.(sock := Fetched(t.sock.(ticks := 0))) else t
  }

  function RecvNow(s: Sock, c: RecvCall): Trace {
    var (s1, rc) := ProcessCommands(s, 0, false, 0, c.poll2);
    if rc != Ok then Trace(s1, Failed(rc.errno), [], []) else
      var s2 := s1.(ticks := 0);
      match c.x2
      case Accepted => Trace(Fetched(s2), Done, [], [c.x2])
      case Again => Trace(s2, Failed(EAGAIN), [], [c.x2])
      case Refused => Trace(s2, Failed(OTHER), [], [c.x2])
  }

  // ---- deadlines

  /** The clock readings of the turns: never before `start`, and none missed. */
  ghost predicate Timely(wakes: seq<Wake>, start: nat, end: nat) {
    forall i :: 0 <= i < |wakes| ==> start <= wakes[i].now < TWO64 && !Missed(end, wakes[i].now)
  }

  /** When wait i begins. */
  function WaitStart(wakes: seq<Wake>, start: nat, i: nat): nat
    requires i <= |wakes|
  {
    if i == 0 then start else wakes[i - 1].now
  }

  /** Every wait is for exactly the time left; only the last turn may find the
      deadline passed, and the loop gives up only then, and does then. */
  ghost predicate OnTime(waits: seq<int>, outcome: Outcome, wakes: seq<Wake>, now: nat, end: nat, block: bool) {
    && |waits| <= |wakes|
    && (forall i :: 0 <= i < |waits| ==> waits[i] == if i == 0 && !block then 0 else end - WaitStart(wakes, now, i))
    && (forall i :: 0 <= i < |waits| - 1 ==> wakes[i].now < end)
    && (outcome == Failed(EAGAIN) ==> |waits| > 0 && wakes[|waits| - 1].now >= end)
    && (outcome == Waiting ==> |waits| == |wakes| && forall i :: 0 <= i < |wakes| ==> wakes[i].now < end)
  }

  lemma OnTimeCons(w: Wake, rest: seq<Wake>, waits: seq<int>, outcome: Outcome, now: nat, end: nat, block: bool)
    requires OnTime(waits, outcome, rest, w.now, end, true) && w.now < end
    ensures OnTime([if block then end - now else 0] + waits, outcome, [w] + rest, now, end, block)
  {
    var all, wakes := [if block then end - now else 0] + waits, [w] + rest;
    forall i | 0 <= i < |all| ensures all[i] == if i == 0 && !block then 0 else end - WaitStart(wakes, now, i) {
      if i > 0 {
        assert all[i] == waits[i - 1];
        assert WaitStart(wakes, now, i) == WaitStart(rest, w.now, i - 1);
      }
    }
  }

  // ---- the schedule of the loop

  /** What the loop does with its waits, said without the socket. */
  ghost predicate Follows(waits: seq<int>, outcome: Outcome, timeout: int, end: nat, block: bool, wakes: seq<Wake>)
    decreases |wakes|
  {
    if wakes == [] then waits == [] && outcome == Waiting else
      var wait, next := if block then timeout else 0, if timeout > 0 then Left(end, wakes[0].now) else timeout;
      && waits != [] && waits[0] == wait
      && if |waits| == 1 && outcome != Waiting then outcome == Failed(EAGAIN) ==> timeout > 0 && next <= 0
         else (timeout > 0 ==> next > 0) && Follows(waits[1..], outcome, next, end, true, wakes[1..])
  }

  lemma {:induction false} LoopFollows(s: Sock, timeout: int, end: nat, block: bool, wakes: seq<Wake>, t: Trace)
    requires t == Loop(s, timeout, end, block, wakes)
    ensures Follows(t.waits, t.outcome, timeout, end, block, wakes)
    decreases |wakes|
  {
    if wakes != [] {
      DrainFrame(s, wakes[0].poll);
      var s1 := Drain(s, wakes[0].poll).0;
      var next := if timeout > 0 then Left(end, wakes[0].now) else timeout;
      var rest := Loop(s1, next, end, true, wakes[1..]);
      LoopFollows(s1, next, end, true, wakes[1..], rest);
      NeverNothing(s1, next, end, wakes[1..], rest);
    }
  }

  lemma NeverNothing(s: Sock, timeout: int, end: nat, wakes: seq<Wake>, t: Trace)
    requires t == Loop(s, timeout, end, true, wakes)
    ensures t.waits == [] ==> t.outcome == Waiting
  {
  }

  /** Every wait is positive, but for recv's first one after a poll. */
  ghost predicate Finite(waits: seq<int>, block: bool) {
    forall i :: 0 <= i < |waits| ==> if i == 0 && !block then waits[i] == 0 else waits[i] > 0
  }

  /** Whatever the clock says, a finite timeout never becomes an infinite one. */
  lemma {:induction false} FiniteWaits(waits: seq<int>, outcome: Outcome, timeout: int, end: nat, block: bool, wakes: seq<Wake>)
    requires timeout > 0 && Follows(waits, outcome, timeout, end, block, wakes)
    ensures Finite(waits, block)
    decreases |wakes|
  {
    if wakes != [] && !(|waits| == 1 && outcome != Waiting) {
      FiniteWaits(waits[1..], outcome, Left(end, wakes[0].now), end, true, wakes[1..]);
      assert forall i :: 0 < i < |waits| ==> waits[i] == waits[1..][i - 1];
    }
  }

  /** The clock does not run backwards. */
  ghost predicate Clocked(wakes: seq<Wake>, start: nat) {
    forall i :: 0 <= i < |wakes| ==> start <= wakes[i].now < TWO64
  }

  /** EAGAIN, if that is the outcome, was not early. */
  ghost predicate NotEarly(waits: seq<int>, outcome: Outcome, wakes: seq<Wake>, end: nat) {
    outcome == Failed(EAGAIN) ==> 0 < |waits| <= |wakes| && wakes[|waits| - 1].now >= end
  }

  /** However late a reading is, EAGAIN is never early. */
  lemma {:induction false} NotEarlyWaits(waits: seq<int>, outcome: Outcome, timeout: int, start: nat, end: nat, block: bool, wakes: seq<Wake>)
    requires timeout > 0 && end - start < TWO31 && end < TWO64 && Clocked(wakes, start)
    requires Follows(waits, outcome, timeout, end, block, wakes)
    ensures NotEarly(waits, outcome, wakes, end)
    decreases |wakes|
  {
    if wakes != [] {
      LeftSign(end, wakes[0].now);
      if !(|waits| == 1 && outcome != Waiting) {
        NotEarlyWaits(waits[1..], outcome, Left(end, wakes[0].now), start, end, true, wakes[1..]);
      }
    }
  }

  /** A loop with a finite timeout keeps to its schedule. */
  lemma {:induction false} WaitsOnTime(waits: seq<int>, outcome: Outcome, now: nat, end: nat, block: bool, wakes: seq<Wake>)
    requires 0 < end - now < TWO31 && end < TWO64
    requires forall i :: 0 <= i < |wakes| ==> end - TWO31 < wakes[i].now < TWO64 && !Missed(end, wakes[i].now)
    requires Follows(waits, outcome, end - now, end, block, wakes)
    ensures OnTime(waits, outcome, wakes, now, end, block)
    decreases |wakes|
  {
    if wakes != [] {
      LeftSign(end, wakes[0].now);
      if !(|waits| == 1 && outcome != Waiting) {
        WaitsOnTime(waits[1..], outcome, wakes[0].now, end, true, wakes[1..]);
        OnTimeCons(wakes[0], wakes[1..], waits[1..], outcome, now, end, block);
        assert [wakes[0]] + wakes[1..] == wakes && [waits[0]] + waits[1..] == waits;
      }
    }
  }

  /** With an infinite timeout every wait is infinite and the loop never times out. */
  lemma {:induction false} ForeverWaits(waits: seq<int>, outcome: Outcome, timeout: int, end: nat, wakes: seq<Wake>)
    requires timeout < 0 && Follows(waits, outcome, timeout, end, true, wakes)
    ensures (forall i :: 0 <= i < |waits| ==> waits[i] == timeout) && outcome != Failed(EAGAIN)
    decreases |wakes|
  {
    if wakes != [] && !(|waits| == 1 && outcome != Waiting) {
      ForeverWaits(waits[1..], outcome, timeout, end, wakes[1..]);
      assert forall i :: 0 < i < |waits| ==> waits[i] == waits[1..][i - 1];
    }
  }

  lemma LoopForever(s: Sock, timeout: int, end: nat, wakes: seq<Wake>, t: Trace)
    requires timeout < 0 && t == Loop(s, timeout, end, true, wakes)
    ensures (forall i :: 0 <= i < |t.waits| ==> t.waits[i] == timeout) && t.outcome != Failed(EAGAIN)
  {
    LoopFollows(s, timeout, end, true, wakes, t);
    ForeverWaits(t.waits, t.outcome, timeout, end, wakes);
  }

  /** When a turn gives up: without a message it does iff its reading is at or past the
      deadline and not a missed one; after a missed one the loop waits on. */
  lemma GivesUpIff(s: Sock, timeout: int, end: nat, w: Wake)
    requires timeout > 0 && ProcessCommands(s, timeout, false, 0, w.poll).1 == Ok && w.x == Again
    requires end < TWO64 && w.now < TWO64 && end - w.now < TWO31
    ensures var t := Loop(s, timeout, end, true, [w]);
            && (t.outcome == Failed(EAGAIN) <==> w.now >= end && !Missed(end, w.now))
            && (t.outcome == Waiting <==> w.now < end || Missed(end, w.now))
  {
    LeftSign(end, w.now);
  }

  // ---- what a call transfers, and termination

  lemma {:induction false} LoopKeeps(s: Sock, timeout: int, end: nat, block: bool, wakes: seq<Wake>, t: Trace)
    requires !s.ctxTerminated && t == Loop(s, timeout, end, block, wakes)
    ensures t.sock.opts == s.opts && t.sock.ticks == s.ticks
    ensures t.sock.undrained == 0 || t.sock.undrained == s.undrained
    ensures t.outcome == Done ==> t.sock.undrained == 0
    ensures t.sock.ctxTerminated ==> t.outcome == Failed(ETERM) || t.outcome == Failed(EINTR)
    ensures t.outcome == Failed(ETERM) ==> t.sock.ctxTerminated
    decreases |wakes|
  {
    if wakes != [] {
      DrainFrame(s, wakes[0].poll);
      var (s1, rc) := Drain(s, wakes[0].poll);
      if rc == Ok && wakes[0].x == Again {
        var timeout' := if timeout > 0 then Left(end, wakes[0].now) else timeout;
        LoopKeeps(s1, timeout', end, true, wakes[1..], Loop(s1, timeout', end, true, wakes[1..]));
      }
    }
  }

  /** What the socket type would answer in the turns to come. */
  function Offers(wakes: seq<Wake>): seq<XResult> {
    if wakes == [] then [] else [wakes[0].x] + Offers(wakes[1..])
  }

  /** The socket type is asked again only while it says "again", what it says is taken
      in order from what it offers, and the call succeeds iff the last thing it said
      was that the message was taken -- so exactly once -- and fails with its error
      iff that was the last thing it said. */
  ghost predicate Asks(outcome: Outcome, answers: seq<XResult>, offers: seq<XResult>) {
    && answers <= offers
    && (forall i :: 0 <= i < |answers| - 1 ==> answers[i] == Again)
    && (outcome == Done <==> answers != [] && answers[|answers| - 1] == Accepted)
    && (outcome == Failed(OTHER) <==> answers != [] && answers[|answers| - 1] == Refused)
  }

  lemma AsksFirst(outcome: Outcome, answers: seq<XResult>, offers: seq<XResult>)
    requires Asks(outcome, answers, offers)
    ensures Asks(outcome, [Again] + answers, [Again] + offers)
  {
  }

  lemma {:induction false} LoopAsks(s: Sock, timeout: int, end: nat, block: bool, wakes: seq<Wake>, t: Trace)
    requires t == Loop(s, timeout, end, block, wakes)
    ensures Asks(t.outcome, t.answers, Offers(wakes))
    ensures |t.waits| == |t.answers| + (if t.outcome == Failed(ETERM) || t.outcome == Failed(EINTR) then 1 else 0)
    decreases |wakes|
  {
    if wakes != [] {
      DrainFrame(s, wakes[0].poll);
      var (s1, rc) := Drain(s, wakes[0].poll);
      var next := if timeout > 0 then Left(end, wakes[0].now) else timeout;
      if rc == Ok && wakes[0].x == Again && !(timeout > 0 && next <= 0) {
        var rest := Loop(s1, next, end, true, wakes[1..]);
        LoopAsks(s1, next, end, true, wakes[1..], rest);
        AsksFirst(rest.outcome, rest.answers, Offers(wakes[1..]));
      }
    }
  }

  /** A call that has met the stop fails: with ETERM, or EINTR when a signal came first. */
  ghost predicate StopSeen(t: Trace) {
    t.sock.ctxTerminated ==> t.outcome == Failed(ETERM) || t.outcome == Failed(EINTR)
  }

  /** The part of a call that is the loop, after a first answer. */
  lemma LoopAnswers(s: Sock, timeout: int, end: nat, block: bool, wakes: seq<Wake>, l: Trace)
    requires !s.ctxTerminated && l == Loop(s, timeout, end, block, wakes)
    ensures Asks(l.outcome, [Again] + l.answers, [Again] + Offers(wakes)) && StopSeen(l)
  {
    LoopKeeps(s, timeout, end, block, wakes, l);
    LoopAsks(s, timeout, end, block, wakes, l);
    AsksFirst(l.outcome, l.answers, Offers(wakes));
  }

  /** send: the outcome against what xsend was asked and answered, the first time and in
      the loop, and against the stop. */
  lemma SendTransfers(s: Sock, valid: bool, dontWait: bool, tsc: nat, poll: Poll, x: XResult, start: nat, wakes: seq<Wake>, t: Trace)
    requires t == Send(s, valid, dontWait, tsc, poll, x, start, wakes)
    ensures Asks(t.outcome, t.answers, [x] + Offers(wakes)) && StopSeen(t)
  {
    if !s.ctxTerminated && valid {
      SendPolls(s, tsc, poll);
      var (s1, rc) := ProcessCommands(s, 0, true, tsc, poll);
      if rc == Ok && x == Again && !dontWait && s.opts.sndtimeo != 0 {
        var end := End(s.opts.sndtimeo, start);
        LoopAnswers(s1, s.opts.sndtimeo, end, true, wakes, Loop(s1, s.opts.sndtimeo, end, true, wakes));
      }
    }
  }

  lemma SendPolls(s: Sock, tsc: nat, poll: Poll)
    requires !s.ctxTerminated
    ensures var (s1, rc) := ProcessCommands(s, 0, true, tsc, poll);
            && (rc == Ok || rc == Err(ETERM) || rc == Err(EINTR))
            && (rc == Ok ==> !s1.ctxTerminated)
  {
    DrainFrame(s, poll);
    DrainFrame(s.(lastTsc := tsc), poll);
  }

  lemma TickPollFrame(s: Sock, c: RecvCall)
    requires !s.ctxTerminated
    ensures var (s1, rc) := TickPoll(s, c);
            && s1.opts == s.opts
            && (rc == Ok ==> !s1.ctxTerminated)
            && (rc != Ok ==> rc == Err(EINTR) || (rc == Err(ETERM) && s1.ctxTerminated))
            && (rc == Ok ==> if s.ticks + 1 == s.opts.inboundPollRate
                             then s1.ticks == 0 && s1.undrained == 0
                             else s1.ticks == s.ticks + 1 && s1.undrained == s.undrained)
            && (rc == Err(EINTR) <==> s.ticks + 1 == s.opts.inboundPollRate && Drain(s.(ticks := s.ticks + 1), c.poll).1 == Err(EINTR))
            && (rc == Err(EINTR) ==> s1.ticks == s.opts.inboundPollRate)
  {
    DrainFrame(s.(ticks := s.ticks + 1), c.poll);
  }

  /** What the rest of a recv call leaves of the ticks and of the undrained messages. */
  ghost predicate TicksKept(s: Sock, s': Sock) {
    && s'.opts == s.opts && (s'.ticks == 0 || s'.ticks == s.ticks)
    && (s'.undrained <= 1 || (s'.undrained == s.undrained && s'.ticks == s.ticks))
  }

  lemma RecvNowSound(s: Sock, c: RecvCall)
    requires !s.ctxTerminated
    ensures var t := RecvNow(s, c);
            StopSeen(t) && Asks(t.outcome, t.answers, [c.x2]) && TicksKept(s, t.sock)
  {
    DrainFrame(s, c.poll2);
  }

  lemma RecvBlockingSound(s: Sock, c: RecvCall)
    requires !s.ctxTerminated
    ensures var t := RecvBlocking(s, c);
            StopSeen(t) && Asks(t.outcome, t.answers, Offers(c.wakes)) && TicksKept(s, t.sock)
  {
    var end := End(s.opts.rcvtimeo, c.start);
    var l := Loop(s, s.opts.rcvtimeo, end, s.ticks != 0, c.wakes);
    LoopKeeps(s, s.opts.rcvtimeo, end, s.ticks != 0, c.wakes, l);
    LoopAsks(s, s.opts.rcvtimeo, end, s.ticks != 0, c.wakes, l);
  }

  /** The same for recv, which asks twice when it must not block. */
  lemma RecvTransfers(s: Sock, c: RecvCall, t: Trace)
    requires t == Recv(s, c)
    ensures StopSeen(t)
    ensures Asks(t.outcome, t.answers, [c.x] + if c.dontWait || s.opts.rcvtimeo == 0 then [c.x2] else Offers(c.wakes))
  {
    if !s.ctxTerminated && c.valid {
      TickPollFrame(s, c);
      var (s1, rc) := TickPoll(s, c);
      if rc == Ok && c.x == Again {
        if c.dontWait || s.opts.rcvtimeo == 0 {
          RecvNowSound(s1, c);
          AsksFirst(RecvNow(s1, c).outcome, RecvNow(s1, c).answers, [c.x2]);
        } else {
          RecvBlockingSound(s1, c);
          AsksFirst(RecvBlocking(s1, c).outcome, RecvBlocking(s1, c).answers, Offers(c.wakes));
        }
      }
    }
  }

  /** A call that must not block returns without waiting, whatever it meets. */
  lemma SendNonBlocking(s: Sock, valid: bool, dontWait: bool, tsc: nat, poll: Poll, x: XResult, start: nat, wakes: seq<Wake>)
    requires dontWait || s.opts.sndtimeo == 0
    ensures var t := Send(s, valid, dontWait, tsc, poll, x, start, wakes);
            t.waits == [] && t.outcome != Waiting
  {
  }

  lemma RecvNonBlocking(s: Sock, c: RecvCall)
    requires c.dontWait || s.opts.rcvtimeo == 0
    ensures Recv(s, c).waits == [] && Recv(s, c).outcome != Waiting
  {
    if !s.ctxTerminated && c.valid {
      TickPollFrame(s, c);
    }
  }

  lemma EndExact(timeout: nat, start: nat)
    ensures start + timeout < TWO64 ==> End(timeout, start) == start + timeout
  {
  }

  /** A send that blocks is its loop. */
  lemma SendBlocks(s: Sock, tsc: nat, poll: Poll, start: nat, wakes: seq<Wake>, t: Trace)
    returns (s1: Sock, l: Trace)
    requires s.opts.sndtimeo > 0 && !s.ctxTerminated && ProcessCommands(s, 0, true, tsc, poll).1 == Ok
    requires t == Send(s, true, false, tsc, poll, Again, start, wakes)
    ensures l == Loop(s1, s.opts.sndtimeo, End(s.opts.sndtimeo, start), true, wakes)
    ensures t.waits == l.waits && t.outcome == l.outcome
  {
    s1 := ProcessCommands(s, 0, true, tsc, poll).0;
    l := Loop(s1, s.opts.sndtimeo, End(s.opts.sndtimeo, start), true, wakes);
  }

  /** Everything about a blocking call with a finite timeout: it never waits without
      bound; if the clock does not run backwards its EAGAIN comes only at or after
      start + timeout; and if no reading is missed every wait is for exactly the time
      left and the call gives up at the first turn that finds the deadline passed. */
  ghost predicate KeepsDeadline(waits: seq<int>, outcome: Outcome, wakes: seq<Wake>, start: nat, timeout: nat, block: bool) {
    && Finite(waits, block)
    && (timeout < TWO31 && start + timeout < TWO64 ==>
          && (Clocked(wakes, start) ==> NotEarly(waits, outcome, wakes, start + timeout))
          && (Timely(wakes, start, start + timeout) ==> OnTime(waits, outcome, wakes, start, start + timeout, block)))
  }

  lemma WaitsKeepDeadline(waits: seq<int>, outcome: Outcome, wakes: seq<Wake>, start: nat, timeout: nat, end: nat, block: bool)
    requires timeout > 0 && (timeout < TWO31 && start + timeout < TWO64 ==> end == start + timeout)
    requires Follows(waits, outcome, timeout, end, block, wakes)
    ensures KeepsDeadline(waits, outcome, wakes, start, timeout, block)
  {
    FiniteWaits(waits, outcome, timeout, end, block, wakes);
    if timeout < TWO31 && start + timeout < TWO64 {
      if Clocked(wakes, start) {
        NotEarlyWaits(waits, outcome, timeout, start, end, block, wakes);
      }
      if Timely(wakes, start, end) {
        WaitsOnTime(waits, outcome, start, end, block, wakes);
      }
    }
  }

  /** The blocking loop keeps its deadline. */
  lemma LoopDeadline(s: Sock, start: nat, timeout: nat, block: bool, wakes: seq<Wake>, t: Trace)
    requires timeout > 0 && t == Loop(s, timeout, End(timeout, start), block, wakes)
    ensures KeepsDeadline(t.waits, t.outcome, wakes, start, timeout, block)
  {
    EndExact(timeout, start);
    LoopFollows(s, timeout, End(timeout, start), block, wakes, t);
    WaitsKeepDeadline(t.waits, t.outcome, wakes, start, timeout, End(timeout, start), block);
  }

  lemma SendDeadline(s: Sock, tsc: nat, poll: Poll, start: nat, wakes: seq<Wake>, t: Trace)
    requires s.opts.sndtimeo > 0 && !s.ctxTerminated && ProcessCommands(s, 0, true, tsc, poll).1 == Ok
    requires t == Send(s, true, false, tsc, poll, Again, start, wakes)
    ensures KeepsDeadline(t.waits, t.outcome, wakes, start, s.opts.sndtimeo, true)
  {
    var s1, l := SendBlocks(s, tsc, poll, start, wakes, t);
    LoopDeadline(s1, start, s.opts.sndtimeo, true, wakes, l);
  }

  lemma RecvBlocks(s: Sock, c: RecvCall, t: Trace)
    returns (s1: Sock, l: Trace)
    requires s.opts.rcvtimeo > 0 && !s.ctxTerminated
    requires c.valid && !c.dontWait && c.x == Again && TickPoll(s, c).1 == Ok && t == Recv(s, c)
    ensures l == Loop(s1, s.opts.rcvtimeo, End(s.opts.rcvtimeo, c.start), TickPoll(s, c).0.ticks != 0, c.wakes)
    ensures t.waits == l.waits && t.outcome == l.outcome
  {
    TickPollFrame(s, c);
    s1 := TickPoll(s, c).0;
    l := Loop(s1, s.opts.rcvtimeo, End(s.opts.rcvtimeo, c.start), s1.ticks != 0, c.wakes);
  }

  /** The same for recv; only a first turn right after a poll does not wait. */
  lemma RecvDeadline(s: Sock, c: RecvCall, t: Trace)
    requires s.opts.rcvtimeo > 0 && !s.ctxTerminated
    requires c.valid && !c.dontWait && c.x == Again && TickPoll(s, c).1 == Ok && t == Recv(s, c)
    ensures KeepsDeadline(t.waits, t.outcome, c.wakes, c.start, s.opts.rcvtimeo, TickPoll(s, c).0.ticks != 0)
  {
    var s1, l := RecvBlocks(s, c, t);
    LoopDeadline(s1, c.start, s.opts.rcvtimeo, TickPoll(s, c).0.ticks != 0, c.wakes, l);
  }

  // ---- recv and pending commands

  function RunRecv(s: Sock, calls: seq<RecvCall>): Sock {
    if calls == [] then s else Recv(RunRecv(s, calls[..|calls| - 1]), calls[|calls| - 1]).sock
  }

  /** A signal interrupts the poll made every inboundPollRate calls. */
  ghost predicate PollInterrupted(s: Sock, c: RecvCall) {
    c.valid && s.ticks + 1 == s.opts.inboundPollRate && Drain(s.(ticks := s.ticks + 1), c.poll).1 == Err(EINTR)
  }

  /** Between two reads of the mailbox recv hands out at most ticks + 1 messages. */
  ghost predicate TicksOk(s: Sock) {
    s.ctxTerminated || (s.ticks < s.opts.inboundPollRate && s.undrained <= s.ticks + 1)
  }

  /** After the poll, at most one message is handed out before the mailbox is read. */
  lemma RecvAfterPoll(s: Sock, c: RecvCall, s1: Sock, s': Sock)
    requires !s.ctxTerminated && c.valid && TickPoll(s, c) == (s1, Ok) && s' == Recv(s, c).sock
    ensures s' == s1 || s' == Fetched(s1) || TicksKept(s1, s')
  {
    TickPollFrame(s, c);
    RecvNowSound(s1, c);
    RecvBlockingSound(s1, c);
  }

  lemma RecvKeepsTicks(s: Sock, c: RecvCall)
    requires TicksOk(s) && !PollInterrupted(s, c)
    ensures TicksOk(Recv(s, c).sock) && Recv(s, c).sock.opts == s.opts
  {
    if !s.ctxTerminated && c.valid {
      TickPollFrame(s, c);
      var (s1, rc) := TickPoll(s, c);
      if rc == Ok {
        RecvAfterPoll(s, c, s1, Recv(s, c).sock);
      }
    }
  }

  /** recv does not starve commands: over any run of recv calls whose polls are not
      interrupted, at most inboundPollRate messages are handed out between two reads
      of the mailbox. */
  lemma {:induction false} CommandsNotStarved(s: Sock, calls: seq<RecvCall>)
    requires TicksOk(s) && s.opts.inboundPollRate > 0
    requires Uninterrupted(s, calls)
    ensures var s' := RunRecv(s, calls);
            TicksOk(s') && s'.opts == s.opts && (s'.ctxTerminated || s'.undrained <= s.opts.inboundPollRate)
  {
    if calls != [] {
      var pre := calls[..|calls| - 1];
      forall i | 0 <= i < |pre| ensures !PollInterrupted(RunRecv(s, pre[..i]), pre[i]) {
        assert pre[..i] == calls[..i] && pre[i] == calls[i];
      }
      CommandsNotStarved(s, pre);
      RecvKeepsTicks(RunRecv(s, pre), calls[|calls| - 1]);
    }
  }

  /** One interrupted poll is enough: ticks is left at the poll rate ... */
  lemma InterruptedPollSticks(s: Sock, c: RecvCall)
    requires !s.ctxTerminated && PollInterrupted(s, c)
    ensures Recv(s, c).outcome == Failed(EINTR) && Recv(s, c).sock.ticks == s.opts.inboundPollRate
    ensures Recv(s, c).sock.opts == s.opts
  {
    TickPollFrame(s, c);
  }

  /** ... and from there, as long as messages keep coming, the mailbox is never read
      again: the equality test has been passed. */
  lemma {:induction false} StarvedAfterInterrupt(s: Sock, calls: seq<RecvCall>)
    requires !s.ctxTerminated && s.ticks >= s.opts.inboundPollRate
    requires forall i :: 0 <= i < |calls| ==> calls[i].valid && calls[i].x == Accepted
    ensures RunRecv(s, calls) == s.(ticks := s.ticks + |calls|, undrained := s.undrained + |calls|)
  {
    if calls != [] {
      StarvedAfterInterrupt(s, calls[..|calls| - 1]);
    }
  }

  /** A run of recv calls none of whose polls is interrupted. */
  ghost predicate Uninterrupted(s: Sock, calls: seq<RecvCall>) {
    forall i :: 0 <= i < |calls| ==> !PollInterrupted(RunRecv(s, calls[..i]), calls[i])
  }

  ghost predicate NeverStarves(s: Sock) {
    forall calls :: Uninterrupted(s, calls) ==>
      RunRecv(s, calls).ctxTerminated || RunRecv(s, calls).undrained <= s.opts.inboundPollRate
  }

  /** The exact condition: commands are safe from starvation, over all runs without a
      further interrupted poll, iff ticks is still below the poll rate -- which an
      interrupted poll is what undoes. */
  lemma StarvesIff(s: Sock)
    requires !s.ctxTerminated && s.opts.inboundPollRate > 0 && s.undrained <= s.ticks + 1
    ensures NeverStarves(s) <==> s.ticks < s.opts.inboundPollRate
  {
    var rate := s.opts.inboundPollRate;
    if s.ticks < rate {
      forall calls | Uninterrupted(s, calls)
        ensures RunRecv(s, calls).ctxTerminated || RunRecv(s, calls).undrained <= rate
      {
        CommandsNotStarved(s, calls);
      }
    } else {
      var c := RecvCall(true, false, UNDISTURBED, Accepted, UNDISTURBED, Again, 0, []);
      var calls := seq(rate + 1, _ => c);
      forall i | 0 <= i < |calls| ensures !PollInterrupted(RunRecv(s, calls[..i]), calls[i]) {
        StarvedAfterInterrupt(s, calls[..i]);
      }
      StarvedAfterInterrupt(s, calls);
      assert Uninterrupted(s, calls);
      assert RunRecv(s, calls).undrained > rate;
    }
  }
}
