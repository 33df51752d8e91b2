/** socket_base_t as a class: its methods, with their loops, proved to do what
    SocketState, Endpoints, Mailbox, SocketCalls and SocketIO say. */
module SocketClass {
  import opened Wrappers
  import opened SocketState
  import opened Endpoints
  import opened Mailbox
  import opened SocketCalls
  import opened SocketIO

  class Socket {
    const opts: Options
    var own: OwnPart           // the own_t base
    var pipes: seq<Pipe>
    var asked: seq<Pipe>
    var endpoints: seq<Entry>
    var inprocs: seq<InprocEntry>
    var ctxTerminated: bool
    var mailbox: seq<Cmd>
    var ending: seq<Target>
    var lastTsc: nat
    var ticks: nat
    var undrained: nat

    function State(): Sock reads this {
      Sock(opts, own, pipes, asked, endpoints, inprocs, ctxTerminated, mailbox, ending, lastTsc, ticks, undrained)
    }

    constructor (opts: Options)
      ensures State() == NewSock(opts)
    {
      this.opts := opts;
      own, pipes, asked, endpoints, inprocs := NEW_OWN, [], [], [], [];
      ctxTerminated, mailbox, ending, lastTsc, ticks, undrained := false, [], [], 0, 0, 0;
    }

    // ---- pipes

    method Attach(p: Pipe)
      modifies this`pipes, this`own, this`asked
      ensures State() == AttachPipe(old(State()), p)
    {
      pipes := pipes + [p];
      if own.terminating {
        own := own.(termAcks := own.termAcks + 1);
        asked := asked + [p];
      }
    }

    method AskAll()
      modifies this`asked
      ensures asked == old(asked) + pipes
    {
      var i := 0;
      while i != |pipes|
        invariant i <= |pipes| && asked == old(asked) + pipes[..i]
      {
        asked := asked + [pipes[i]];
        i := i + 1;
      }
      assert pipes[..|pipes|] == pipes;
    }

    method Term()
      modifies this`asked, this`own
      ensures State() == ProcessTerm(old(State()))
    {
      AskAll();
      own := own.(termAcks := own.termAcks + |pipes|);
      own := OwnProcessTerm(own);
    }

    method EraseInproc(p: Pipe)
      modifies this`inprocs
      ensures inprocs == RemoveInproc(old(inprocs), p)
    {
      var i := 0;
      while i < |inprocs|
        invariant i <= |inprocs| && inprocs == old(inprocs)
        invariant forall k :: 0 <= k < i ==> inprocs[k].pipe != p
      {
        if inprocs[i].pipe == p {
          EraseAt(inprocs, p, i);
          inprocs := inprocs[..i] + inprocs[i + 1..];
          return;
        }
        i := i + 1;
      }
      EraseAt(inprocs, p, i);
    }

    method OnPipeTerminated(p: Pipe)
      modifies this`inprocs, this`pipes, this`own
      ensures State() == PipeTerminated(old(State()), p)
    {
      EraseInproc(p);
      pipes := Remove(pipes, p);
      if own.terminating {
        own := UnregisterTermAck(own);
      }
    }

    // ---- commands

    /** What other threads post in the meantime. */
    method Posted(cmds: seq<Cmd>)
      modifies this`mailbox, this`own
      ensures State() == Arrive(old(State()), cmds)
    {
      for i := 0 to |cmds|
        invariant State() == Arrive(old(State()), cmds[..i])
      {
        assert cmds[..i + 1][..i] == cmds[..i];
        mailbox := mailbox + [cmds[i]];
        if cmds[i].Bind? && own.promised > 0 {
          own := own.(promised := own.promised - 1);
        }
      }
      assert cmds[..|cmds|] == cmds;
    }

    /** mailbox->recv: a command, or EAGAIN, or EINTR. */
    method Receive(poll: Poll) returns (cmd: Option<Cmd>, errno: Errno, rest: Poll)
      modifies this`mailbox, this`own, this`undrained
      ensures var s1, signal := Arrive(old(State()), Next(poll).arrived), Next(poll).signal;
              && rest == Rest(poll)
              && (cmd.None? <==> Fails(s1, signal))
              && (cmd.None? ==> (State(), errno) == Failing(s1, signal))
              && (cmd.Some? ==> cmd.value == s1.mailbox[0] && State() == s1.(mailbox := s1.mailbox[1..]))
    {
      var m := Next(poll);
      rest := Rest(poll);
      Posted(m.arrived);
      if m.signal {
        return None, EINTR, rest;
      }
      if mailbox == [] {
        undrained := 0;
        return None, EAGAIN, rest;
      }
      cmd, errno := Some(mailbox[0]), OTHER;
      mailbox := mailbox[1..];
    }

    /** process_command; a term_endpoint command reads on in the mailbox. */
    method Dispatch(cmd: Cmd, poll: Poll) returns (rest: Poll)
      modifies this
      ensures (State(), rest) == Dispatched(old(State()), cmd, poll)
      decreases Work(State(), poll) + 1, 3
    {
      rest := poll;
      match cmd {
        case Stop => ctxTerminated := true;
        case Bind(p) =>
          Attach(p);
          own := ProcessSeqnum(own);
        case Own(c) => own := ProcessSeqnum(ProcessOwn(own, c));
        case TermReq(c) => own := TermChild(own, c);
        case TermAck(c) => own := ProcessTermAck(own, c);
        case PipeTermAck(p) => OnPipeTerminated(p);
        case TermEp(t) =>
          var rc;
          rc, rest := Disconnect(t, poll);
      }
    }

    /** The loop of process_commands, after the first recv has been prepared. */
    method Empty(poll: Poll) returns (rc: Rc, rest: Poll)
      modifies this
      ensures var r := ReadTo(old(State()), poll, |old(ending)|);
              State() == r.sock && rest == r.rest && rc == Answer(r.sock, r.errno)
      decreases Work(State(), poll), 0
    {
      ghost var first, depth := State(), |ending|;
      rest := poll;
      while true
        invariant |ending| == depth && Work(State(), rest) <= Work(first, poll)
        invariant ReadTo(State(), rest, depth) == ReadTo(first, poll, depth)
        decreases Work(State(), rest)
      {
        ghost var s := State();
        ghost var s1 := Arrive(s, Next(rest).arrived);
        ReadOn(s, rest, depth);
        var cmd, errno;
        cmd, errno, rest := Receive(rest);
        if cmd.None? {
          return if errno == EINTR then Err(EINTR) else if ctxTerminated then Err(ETERM) else Ok, rest;
        }
        DispatchReads(State(), cmd.value, rest, depth);
        rest := Dispatch(cmd.value, rest);
      }
    }

    /** process_commands: skips when throttled, else looks at the mailbox. */
    method Commands(timeout: int, throttle: bool, tsc: nat, poll: Poll) returns (rc: Rc, rest: Poll)
      modifies this
      ensures (State(), rc) == ProcessCommands(old(State()), timeout, throttle, tsc, poll)
      ensures !throttle ==> rest == ReadTo(old(State()), poll, |old(ending)|).rest
      decreases Work(State(), poll), 1
    {
      rest := poll;
      if timeout == 0 {
        if tsc != 0 && throttle {
          if tsc >= lastTsc && tsc - lastTsc <= opts.maxCommandDelay {
            return Ok, rest;
          }
          lastTsc := tsc;
        }
      }
      rc, rest := Empty(poll);
    }

    // ---- connect and term_endpoint

    method Add(addr: Addr, child: Child, pipe: Pipe)
      modifies this`mailbox, this`own, this`endpoints
      ensures State() == AddEndpoint(old(State()), addr, child, pipe)
    {
      mailbox := mailbox + [Own(child)];
      own := own.(sentSeqnum := own.sentSeqnum + 1);
      endpoints := endpoints + [Entry(addr, child, pipe)];
    }

    method ConnectTo(addr: Addr, lookup: Lookup, child: Child, pipe: Pipe, poll: Poll) returns (rc: Rc)
      modifies this
      ensures (State(), rc) == Connect(old(State()), addr, lookup, child, pipe, poll)
    {
      if ctxTerminated {
        return Err(ETERM);
      }
      var rest;
      rc, rest := Commands(0, false, 0, poll);
      if rc != Ok {
        return;
      }
      if lookup == BadUri {
        return Err(EINVAL);
      }
      if opts.singleConnect {
        if Listed(endpoints, addr) {
          return Ok;
        }
      }
      if lookup == NoThread {
        return Err(EMTHREAD);
      }
      if lookup == BadAddress {
        return Err(EINVAL);
      }
      var newpipe := NULL;
      if !opts.immediate {
        Attach(pipe);
        newpipe := pipe;
      }
      Add(addr, child, newpipe);
    }

    method BindTo(addr: Addr, lookup: Lookup, child: Child, poll: Poll) returns (rc: Rc)
      modifies this
      ensures (State(), rc) == BindListener(old(State()), addr, lookup, child, poll)
    {
      if ctxTerminated {
        return Err(ETERM);
      }
      var rest;
      rc, rest := Commands(0, false, 0, poll);
      if rc != Ok {
        return;
      }
      match lookup {
        case BadUri => return Err(EINVAL);
        case NoThread => return Err(EMTHREAD);
        case BadAddress => return Err(OTHER);
        case Usable => Add(addr, child, NULL);
      }
    }

    /** The vector: one null per entry to start with, then the entries' pipes. */
    method CollectPipes(range: seq<Entry>) returns (pipesToTerminate: seq<Pipe>)
      ensures pipesToTerminate == Wanted(range)
    {
      pipesToTerminate := seq(|range|, _ => NULL);
      for i := 0 to |range|
        invariant pipesToTerminate == seq(|range|, _ => NULL) + PipesOf(range[..i])
      {
        assert range[..i + 1][..i] == range[..i];
        if range[i].pipe != NULL {
          pipesToTerminate := pipesToTerminate + [range[i].pipe];
        }
      }
      assert range[..|range|] == range;
    }

    /** The patched part: only pipes that are still attached are touched, and the loop is
        left early once as many were found as the vector has elements. */
    method TermPipes(range: seq<Entry>)
      requires range != []
      modifies this`asked
      ensures asked == old(asked) + Asking(pipes, Wanted(range))
    {
      var pipesToTerminate := CollectPipes(range);
      var foundPipes := 0;
      for i := 0 to |pipes|
        invariant foundPipes == |Found(pipes[..i], pipesToTerminate)| < |pipesToTerminate|
        invariant asked == old(asked) + Found(pipes[..i], pipesToTerminate)
      {
        FoundNext(pipes, i, pipesToTerminate);
        if pipes[i] in pipesToTerminate {
          asked := asked + [pipes[i]];
          foundPipes := foundPipes + 1;
          if foundPipes == |pipesToTerminate| {
            FoundSoFar(pipes, i + 1, pipesToTerminate);
            return;
          }
        }
      }
      assert pipes[..|pipes|] == pipes;
    }

    method TermSessions(range: seq<Entry>)
      modifies this`own
      ensures own == TermChildren(old(own), range)
    {
      for i := 0 to |range|
        invariant own == TermChildren(old(own), range[..i])
      {
        assert range[..i + 1][..i] == range[..i];
        own := TermChild(own, range[i].child);
      }
      assert range[..|range|] == range;
    }

    /** The entries of the key, which are listed: their pipes, sessions and themselves. */
    method TermListed(key: Addr)
      requires Matching(endpoints, key) != []
      modifies this`asked, this`own, this`endpoints
      ensures State() == TermRange(old(State()), key)
    {
      var range := Matching(endpoints, key);
      TermPipes(range);
      TermSessions(range);
      endpoints := Without(endpoints, {key});
    }

    method Resolve(t: Target) returns (key: Addr)
      requires t.Known? || t.Tcp?
      ensures key == Key(endpoints, t)
    {
      key := t.addr;
      if t.Tcp? && !Listed(endpoints, key) {
        if t.remote.Some? {
          key := t.remote.value;
          if !Listed(endpoints, key) && t.local.Some? {
            key := t.local.value;
          }
        }
      }
    }

    /** term_endpoint, called by the application or for a command. */
    method Disconnect(t: Target, poll: Poll) returns (rc: Rc, rest: Poll)
      modifies this
      ensures (State(), rc) == TermEndpoint(old(State()), t, poll)
      ensures rest == if old(ctxTerminated) || t.Null? then poll else TermReading(old(State()), t, poll).rest
      decreases Work(State(), poll) + 1, 2
    {
      rest := poll;
      if ctxTerminated {
        return Err(ETERM), rest;
      }
      if t.Null? {
        return Err(EINVAL), rest;
      }
      ghost var before := ending;
      ending := ending + [t];
      rc, rest := Commands(0, false, 0, poll);
      assert ending == before + [t];
      ending := ending[..|ending| - 1];
      if rc != Ok {
        return;
      }
      rc := Act(t);
    }

    /** What term_endpoint does once its reading has succeeded. */
    method Act(t: Target) returns (rc: Rc)
      requires !t.Null?
      modifies this`asked, this`own, this`endpoints, this`inprocs
      ensures (State(), rc) == EndIt(old(State()), t)
    {
      if t.Bad? {
        return Err(EINVAL);
      }
      if t.Inproc? {
        if t.unregistered {
          return Ok;
        }
        var range := InprocPipes(inprocs, t.addr);
        if range == [] {
          return Err(ENOENT);
        }
        AskEach(range);
        inprocs := OtherInprocs(inprocs, t.addr);
        return Ok;
      }
      var key := Resolve(t);
      if Matching(endpoints, key) == [] {
        return Err(ENOENT);
      }
      TermListed(key);
      return Ok;
    }

    method AskEach(range: seq<Pipe>)
      modifies this`asked
      ensures asked == old(asked) + range
    {
      for i := 0 to |range|
        invariant asked == old(asked) + range[..i]
      {
        asked := asked + [range[i]];
      }
      assert range[..|range|] == range;
    }

    // ---- send and recv

    /** One turn of the loop both calls end in: process commands, try, look at the
        clock. It goes on with `next` while no outcome is reached. */
    method Turn(timeout: int, end: nat, wait: int, w: Wake) returns (outcome: Outcome, next: int, answers: seq<XResult>)
      modifies this
      ensures var (s1, rc) := ProcessCommands(old(State()), wait, false, 0, w.poll);
              && State() == s1
              && answers == (if rc != Ok then [] else [w.x])
              && (outcome == Waiting ==> next == (if timeout > 0 then Left(end, w.now) else timeout))
              && outcome == (if rc != Ok then Failed(rc.errno)
                             else if w.x == Accepted then Done
                             else if w.x == Refused then Failed(OTHER)
                             else if timeout > 0 && Left(end, w.now) <= 0 then Failed(EAGAIN)
                             else Waiting)
    {
      next, answers := timeout, [];
      var rc, rest := Commands(wait, false, 0, w.poll);
      if rc != Ok {
        return Failed(rc.errno), next, answers;
      }
      answers := [w.x];
      match w.x {
        case Accepted => return Done, next, answers;
        case Refused => return Failed(OTHER), next, answers;
        case Again =>
      }
      if timeout > 0 {
        next := Left(end, w.now);
        if next <= 0 {
          return Failed(EAGAIN), next, answers;
        }
      }
      outcome := Waiting;
    }

    /** The loop both calls end in; `block0` is true for send. */
    method Wait(timeout0: int, end: nat, block0: bool, wakes: seq<Wake>)
      returns (outcome: Outcome, waits: seq<int>, answers: seq<XResult>)
      modifies this
      ensures Trace(State(), outcome, waits, answers) == Loop(old(State()), timeout0, end, block0, wakes)
    {
      ghost var whole := Loop(State(), timeout0, end, block0, wakes);
      var timeout, block, i := timeout0, block0, 0;
      outcome, waits, answers := Waiting, [], [];
      assert wakes[0..] == wakes;
      while i < |wakes|
        invariant i <= |wakes| && outcome == Waiting
        invariant Prefixed(whole, waits, answers, Loop(State(), timeout, end, block, wakes[i..]))
      {
        var wait, told := if block then timeout else 0, [];
        LoopUnfold(State(), timeout, end, block, wakes[i..], whole, waits, answers);
        outcome, timeout, told := Turn(timeout, end, wait, wakes[i]);
        waits, answers := waits + [wait], answers + told;
        if outcome != Waiting {
          return;
        }
        block := true;
        assert wakes[i..][1..] == wakes[i + 1..];
        i := i + 1;
      }
    }

    method SendMsg(valid: bool, dontWait: bool, tsc: nat, poll: Poll, x: XResult, start: nat, wakes: seq<Wake>)
      returns (outcome: Outcome, waits: seq<int>, answers: seq<XResult>)
      modifies this
      ensures Trace(State(), outcome, waits, answers) == Send(old(State()), valid, dontWait, tsc, poll, x, start, wakes)
    {
      waits, answers := [], [];
      if ctxTerminated {
        return Failed(ETERM), waits, answers;
      }
      if !valid {
        return Failed(EFAULT), waits, answers;
      }
      var rc, rest := Commands(0, true, tsc, poll);
      if rc != Ok {
        return Failed(rc.errno), waits, answers;
      }
      if x == Accepted {
        return Done, waits, [x];
      }
      if x == Refused {
        return Failed(OTHER), waits, [x];
      }
      if dontWait || opts.sndtimeo == 0 {
        return Failed(EAGAIN), waits, [x];
      }
      outcome, waits, answers := Wait(opts.sndtimeo, End(opts.sndtimeo, start), true, wakes);
      answers := [x] + answers;
    }

    method RecvMsg(c: RecvCall) returns (outcome: Outcome, waits: seq<int>, answers: seq<XResult>)
      modifies this
      ensures Trace(State(), outcome, waits, answers) == Recv(old(State()), c)
    {
      waits, answers := [], [];
      if ctxTerminated {
        return Failed(ETERM), waits, answers;
      }
      if !c.valid {
        return Failed(EFAULT), waits, answers;
      }
      var rc := PollEveryFew(c);
      if rc != Ok {
        return Failed(rc.errno), waits, answers;
      }
      if c.x == Refused {
        return Failed(OTHER), waits, [c.x];
      }
      if c.x == Accepted {
        undrained := undrained + 1;
        return Done, waits, [c.x];
      }
      if c.dontWait || opts.rcvtimeo == 0 {
        outcome, answers := RecvAtOnce(c);
      } else {
        outcome, waits, answers := RecvWaiting(c);
      }
      answers := [c.x] + answers;
    }

    /** Every inboundPollRate calls, look at the mailbox. */
    method PollEveryFew(c: RecvCall) returns (rc: Rc)
      modifies this
      ensures (State(), rc) == TickPoll(old(State()), c)
    {
      ticks := ticks + 1;
      if ticks == opts.inboundPollRate {
        var rest;
        rc, rest := Commands(0, false, 0, c.poll);
        if rc != Ok {
          return;
        }
        ticks := 0;
      }
      rc := Ok;
    }

    method RecvWaiting(c: RecvCall) returns (outcome: Outcome, waits: seq<int>, answers: seq<XResult>)
      modifies this
      ensures Trace(State(), outcome, waits, answers) == RecvBlocking(old(State()), c)
    {
      outcome, waits, answers := Wait(opts.rcvtimeo, End(opts.rcvtimeo, c.start), ticks != 0, c.wakes);
      if outcome == Done {
        ticks := 0;
        undrained := undrained + 1;
      }
    }

    method RecvAtOnce(c: RecvCall) returns (outcome: Outcome, answers: seq<XResult>)
      modifies this
      ensures Trace(State(), outcome, [], answers) == RecvNow(old(State()), c)
    {
      var rc, rest := Commands(0, false, 0, c.poll2);
      if rc != Ok {
        return Failed(rc.errno), [];
      }
      ticks := 0;
      match c.x2 {
        case Accepted =>
          undrained := undrained + 1;
          return Done, [c.x2];
        case Again =>
          return Failed(EAGAIN), [c.x2];
        case Refused =>
          return Failed(OTHER), [c.x2];
      }
    }
  }

  /** The socket and what is left of the poll after a command, nested readings included. */
  function Dispatched(s: Sock, cmd: Cmd, poll: Poll): (Sock, Poll) {
    if cmd.TermEp? && !s.ctxTerminated && !cmd.target.Null? then
      (TermEndpoint(s, cmd.target, poll).0, TermReading(s, cmd.target, poll).rest)
    else (ProcessCommand(s, cmd), poll)
  }

  /** A recv that finds no command ends the reading; one that does goes on with it. */
  lemma ReadOn(s: Sock, poll: Poll, depth: nat)
    requires |s.ending| == depth
    ensures var s1, signal := Arrive(s, Next(poll).arrived), Next(poll).signal;
            && Work(s1, Rest(poll)) == Work(s, poll)
            && if Fails(s1, signal) then
                 ReadTo(s, poll, depth) == Read(Failing(s1, signal).0, Rest(poll), Failing(s1, signal).1)
               else ReadTo(s, poll, depth) == ReadTo(TakeOne(s1), Rest(poll), depth)
  {
  }

  /** Going on with a command is dispatching it, and reading on. */
  lemma DispatchReads(s: Sock, cmd: Cmd, poll: Poll, depth: nat)
    requires |s.ending| == depth
    ensures var (s', rest) := Dispatched(s, cmd, poll);
            && |s'.ending| == depth && Work(s', rest) <= Work(s, poll) + 1
            && ReadTo(ProcessCommand(s, cmd), poll, depth) == ReadTo(s', rest, depth)
  {
    if cmd.TermEp? && !s.ctxTerminated && !cmd.target.Null? {
      ReturnIsTerm(s, cmd.target, poll);
      Nested(EnterTerm(s, cmd.target), poll, depth);
    } else {
      assert ProcessCommand(s, cmd).ending == s.ending;
    }
  }

  lemma FoundNext(pipes: seq<Pipe>, i: nat, wanted: seq<Pipe>)
    requires i < |pipes|
    ensures Found(pipes[..i + 1], wanted) == Found(pipes[..i], wanted) + (if pipes[i] in wanted then [pipes[i]] else [])
  {
    assert pipes[..i + 1][..i] == pipes[..i];
  }

  lemma {:induction false} FoundPrefix(pipes: seq<Pipe>, i: nat, wanted: seq<Pipe>)
    requires i <= |pipes|
    ensures Found(pipes[..i], wanted) <= Found(pipes, wanted)
  {
    if i == |pipes| {
      assert pipes[..i] == pipes;
    } else {
      assert pipes[..|pipes| - 1][..i] == pipes[..i];
      FoundPrefix(pipes[..|pipes| - 1], i, wanted);
    }
  }

  /** Leaving early: as many have been found as were wanted. */
  lemma FoundSoFar(pipes: seq<Pipe>, i: nat, wanted: seq<Pipe>)
    requires i <= |pipes| && |Found(pipes[..i], wanted)| == |wanted|
    ensures Asking(pipes, wanted) == Found(pipes[..i], wanted)
  {
    FoundPrefix(pipes, i, wanted);
  }

  /** What is left to do, after some waits and answers, is the rest of the whole. */
  ghost predicate Prefixed(whole: Trace, waits: seq<int>, answers: seq<XResult>, rest: Trace) {
    whole == Trace(rest.sock, rest.outcome, waits + rest.waits, answers + rest.answers)
  }

  lemma LoopOnce(s: Sock, timeout: int, end: nat, block: bool, wakes: seq<Wake>)
    requires wakes != []
    ensures var t, w, wait := Loop(s, timeout, end, block, wakes), wakes[0], if block then timeout else 0;
            var (s1, rc) := ProcessCommands(s, wait, false, 0, w.poll);
            var next := if timeout > 0 then Left(end, w.now) else timeout;
            if rc != Ok then t == Trace(s1, Failed(rc.errno), [wait], [])
            else if w.x == Accepted then t == Trace(s1, Done, [wait], [w.x])
            else if w.x == Refused then t == Trace(s1, Failed(OTHER), [wait], [w.x])
            else if timeout > 0 && next <= 0 then t == Trace(s1, Failed(EAGAIN), [wait], [w.x])
            else var rest := Loop(s1, next, end, true, wakes[1..]);
                 t == rest.(waits := [wait] + rest.waits, answers := [w.x] + rest.answers)
  {
  }

  lemma LoopUnfold(s: Sock, timeout: int, end: nat, block: bool, wakes: seq<Wake>, whole: Trace, waits: seq<int>, answers: seq<XResult>)
    requires wakes != [] && Prefixed(whole, waits, answers, Loop(s, timeout, end, block, wakes))
    ensures var w, wait := wakes[0], if block then timeout else 0;
            var (s1, rc) := ProcessCommands(s, wait, false, 0, w.poll);
            var next := if timeout > 0 then Left(end, w.now) else timeout;
            if rc != Ok then whole == Trace(s1, Failed(rc.errno), waits + [wait], answers + [])
            else if w.x == Accepted then whole == Trace(s1, Done, waits + [wait], answers + [w.x])
            else if w.x == Refused then whole == Trace(s1, Failed(OTHER), waits + [wait], answers + [w.x])
            else if timeout > 0 && next <= 0 then whole == Trace(s1, Failed(EAGAIN), waits + [wait], answers + [w.x])
            else Prefixed(whole, waits + [wait], answers + [w.x], Loop(s1, next, end, true, wakes[1..]))
  {
    var wait := if block then timeout else 0;
    var s1 := ProcessCommands(s, wait, false, 0, wakes[0].poll).0;
    var next := if timeout > 0 then Left(end, wakes[0].now) else timeout;
    var rest := Loop(s1, next, end, true, wakes[1..]);
    LoopOnce(s, timeout, end, block, wakes);
    Regroup(waits, wait, rest.waits);
    Regroup(answers, wakes[0].x, rest.answers);
    assert answers + [] == answers;
  }

  lemma Regroup<T>(before: seq<T>, x: T, after: seq<T>)
    ensures before + ([x] + after) == before + [x] + after
  {
  }

  /** Erasing the first entry of p, if there is one. */
  lemma {:induction false} EraseAt(es: seq<InprocEntry>, p: Pipe, i: nat)
    requires i <= |es| && (forall k :: 0 <= k < i ==> es[k].pipe != p)
    requires i < |es| ==> es[i].pipe == p
    ensures RemoveInproc(es, p) == if i < |es| then es[..i] + es[i + 1..] else es
  {
    if i > 0 {
      var tail := es[1..];
      EraseAt(tail, p, i - 1);
      assert RemoveInproc(es, p) == [es[0]] + RemoveInproc(tail, p);
      if i < |es| {
        assert es[..i] == [es[0]] + tail[..i - 1] && es[i + 1..] == tail[i..];
      }
    } else if es != [] {
      assert es[..0] + es[1..] == es[1..];
    }
  }
}
