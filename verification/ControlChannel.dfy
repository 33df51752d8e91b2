/** The whole harness run of threads/clientserver.cpp and threads/pushpull.cpp:
    command threads, one receiver, and a main thread that sends EXIT after joining
    the command threads.  The two programs differ in how messages queue: one
    thread-safe CLIENT socket shared by all (one FIFO), or one PUSH socket per
    thread and one more for the shutdown thread (one FIFO each). */
module ControlChannel {
  import opened GapDetector
  import opened Sums

  datatype Wiring = ClientServer | PushPull

  datatype Sys = Sys(
    wiring: Wiring,
    numMsgs: int,
    sent: seq<nat>,                  // maxControlMsgSent, by thread
    queues: seq<seq<ControlMsg>>,
    exitSent: bool,
    tally: Tally)

  datatype Action =
    | Send(thread: nat)      // one turn of commandLoop
    | Shutdown               // main: every thread joined, EXIT sent
    | Receive(queue: nat)    // one turn of mainLoop

  /** The queue thread i's messages go to; EXIT goes to the last queue. */
  function Route(w: Wiring, i: nat): nat {
    if w == ClientServer then 0 else i
  }

  function Start(w: Wiring, n: nat, numMsgs: int): Sys {
    Sys(w, numMsgs, seq(n, _ => 0), seq(if w == ClientServer then 1 else n + 1, _ => []), false,
        Fresh(FirstThreads(n)))
  }

  /** The thread function has returned: it reached its limit, or saw keepGoing cleared. */
  predicate Returned(s: Sys, i: nat)
    requires i < |s.sent|
  {
    s.sent[i] >= Quota(s.numMsgs) || !s.tally.keepGoing
  }

  predicate Enabled(s: Sys, a: Action) {
    match a
    case Send(i) => i < |s.sent| && Route(s.wiring, i) < |s.queues| && !Returned(s, i)
    case Shutdown => !s.exitSent && |s.queues| > 0 && forall i :: 0 <= i < |s.sent| ==> Returned(s, i)
    case Receive(q) => s.tally.keepGoing && q < |s.queues| && s.queues[q] != []
  }

  function Step(s: Sys, a: Action): Sys {
    if !Enabled(s, a) then s else
      match a
      case Send(i) =>
        var q := Route(s.wiring, i);
        s.(sent := s.sent[i := s.sent[i] + 1],
           queues := s.queues[q := s.queues[q] + [Ping(i, s.sent[i] + 1)]])
      case Shutdown =>
        var q := |s.queues| - 1;
        s.(exitSent := true, queues := s.queues[q := s.queues[q] + [ControlMsg(EXIT, 0, 0)]])
      case Receive(q) =>
        s.(queues := s.queues[q := s.queues[q][1..]],
           tally := Process(s.tally, s.queues[q][0]))
  }

  /** Any interleaving: actions that are not enabled do nothing. */
  function Run(s: Sys, acts: seq<Action>): Sys {
    if acts == [] then s else Step(Run(s, acts[..|acts| - 1]), acts[|acts| - 1])
  }

  // ---- the invariant

  ghost predicate Shape(s: Sys) {
    && |s.queues| == (if s.wiring == ClientServer then 1 else |s.sent| + 1)
    && !s.tally.failed
    && (forall t: Thread :: t in s.tally.received <==> t < |s.sent|)
    && (!s.exitSent ==> s.tally.keepGoing)
    && (s.exitSent ==> forall i :: 0 <= i < |s.sent| ==> s.sent[i] == Quota(s.numMsgs))
  }

  /** Thread i's queued pings are exactly those sent and not yet received. */
  ghost predicate InFlight(s: Sys, i: nat)
    requires Shape(s) && i < |s.sent|
  {
    && 0 <= s.tally.received[i] <= s.sent[i] <= Quota(s.numMsgs)
    && Numbers(i, s.queues[Route(s.wiring, i)]) == UpTo(s.sent[i])[s.tally.received[i]..]
  }

  /** What queue j may hold; EXIT only as the last entry of the last queue, and
      once it is consumed that queue is empty. */
  ghost predicate QueueOk(s: Sys, j: nat)
    requires Shape(s) && j < |s.queues|
  {
    && (forall k :: 0 <= k < |s.queues[j]| ==> EntryOk(s, j, k))
    && (j == |s.queues| - 1 && s.exitSent ==>
          if s.tally.keepGoing
          then s.queues[j] != [] && s.queues[j][|s.queues[j]| - 1].command == EXIT
          else s.queues[j] == [])
  }

  ghost predicate EntryOk(s: Sys, j: nat, k: nat)
    requires j < |s.queues| && k < |s.queues[j]|
  {
    var m := s.queues[j][k];
    if m.command == EXIT then
      s.exitSent && s.tally.keepGoing && j == |s.queues| - 1 && k == |s.queues[j]| - 1
    else
      m.command == PING && m.thread < |s.sent| && j == Route(s.wiring, m.thread)
  }

  ghost predicate Inv(s: Sys) {
    && Shape(s)
    && (forall i :: 0 <= i < |s.sent| ==> InFlight(s, i))
    && (forall j :: 0 <= j < |s.queues| ==> QueueOk(s, j))
  }

  lemma {:induction false} NumbersHead(t: Thread, m: ControlMsg, rest: seq<ControlMsg>)
    ensures Numbers(t, [m] + rest)
         == (if m.command == PING && m.thread == t then [m.number] else []) + Numbers(t, rest)
  {
    var all := [m] + rest;
    if rest == [] {
      assert all[..|all| - 1] == [];
    } else {
      assert all[..|all| - 1] == [m] + rest[..|rest| - 1];
      NumbersHead(t, m, rest[..|rest| - 1]);
    }
  }

  lemma NumbersLast(t: Thread, q: seq<ControlMsg>, m: ControlMsg)
    ensures Numbers(t, q + [m]) == Numbers(t, q) + (if m.command == PING && m.thread == t then [m.number] else [])
  {
    assert (q + [m])[..|q|] == q;
  }

  lemma {:induction false} NoNumbersIff(t: Thread, q: seq<ControlMsg>)
    ensures Numbers(t, q) == [] <==> forall k :: 0 <= k < |q| ==> !(q[k].command == PING && q[k].thread == t)
  {
    if q != [] {
      NoNumbersIff(t, q[..|q| - 1]);
    }
  }

  lemma SendKeepsInv(s: Sys, i: nat)
    requires Inv(s) && Enabled(s, Send(i))
    ensures Inv(Step(s, Send(i)))
  {
    var s' := Step(s, Send(i));
    var q := Route(s.wiring, i);
    var m := Ping(i, s.sent[i] + 1);
    assert InFlight(s, i);
    assert !s.exitSent;
    forall t | 0 <= t < |s.sent| ensures InFlight(s', t) {
      assert InFlight(s, t);
      NumbersLast(t, s.queues[q], m);
      if t == i {
        assert UpTo(s.sent[i] + 1)[s.tally.received[i]..] == UpTo(s.sent[i])[s.tally.received[i]..] + [s.sent[i] + 1];
      }
    }
    forall j | 0 <= j < |s'.queues| ensures QueueOk(s', j) {
      assert QueueOk(s, j);
      forall k | 0 <= k < |s'.queues[j]| ensures EntryOk(s', j, k) {
        if k < |s.queues[j]| {
          assert EntryOk(s, j, k);
        }
      }
    }
  }

  lemma ShutdownKeepsInv(s: Sys)
    requires Inv(s) && Enabled(s, Shutdown)
    ensures Inv(Step(s, Shutdown))
  {
    var s' := Step(s, Shutdown);
    var last := |s.queues| - 1;
    forall t | 0 <= t < |s.sent| ensures s.sent[t] == Quota(s.numMsgs) {
      assert InFlight(s, t) && Returned(s, t);
    }
    forall t | 0 <= t < |s.sent| ensures InFlight(s', t) {
      assert InFlight(s, t);
      NumbersLast(t, s.queues[last], ControlMsg(EXIT, 0, 0));
    }
    forall j | 0 <= j < |s'.queues| ensures QueueOk(s', j) {
      assert QueueOk(s, j);
      forall k | 0 <= k < |s'.queues[j]| ensures EntryOk(s', j, k) {
        if k < |s.queues[j]| {
          assert EntryOk(s, j, k);
        }
      }
    }
  }

  lemma ReceiveKeepsQueue(s: Sys, q: nat, j: nat)
    requires Inv(s) && Enabled(s, Receive(q)) && j < |s.queues|
    requires Shape(Step(s, Receive(q)))
    ensures QueueOk(Step(s, Receive(q)), j)
  {
    var s', m := Step(s, Receive(q)), s.queues[q][0];
    assert QueueOk(s, j) && QueueOk(s, q) && EntryOk(s, q, 0);
    forall k | 0 <= k < |s'.queues[j]| ensures EntryOk(s', j, k) {
      assert EntryOk(s, j, if j == q then k + 1 else k);
    }
  }

  lemma ReceiveKeepsThread(s: Sys, q: nat, t: nat, s': Sys)
    requires Inv(s) && Enabled(s, Receive(q)) && t < |s.sent| && s' == Step(s, Receive(q)) && Shape(s')
    ensures InFlight(s', t)
  {
    var m, rest, r := s.queues[q][0], s.queues[q][1..], s.tally.received[t];
    assert s.queues[q] == [m] + rest;
    assert QueueOk(s, q) && EntryOk(s, q, 0) && InFlight(s, t);
    NumbersHead(t, m, rest);
    if m.command == PING && m.thread == t {
      assert UpTo(s.sent[t])[r..][1..] == UpTo(s.sent[t])[r + 1..];
    }
  }

  lemma ReceiveKeepsInv(s: Sys, q: nat)
    requires Inv(s) && Enabled(s, Receive(q))
    ensures Inv(Step(s, Receive(q)))
  {
    var s' := Step(s, Receive(q));
    var m, rest := s.queues[q][0], s.queues[q][1..];
    assert s.queues[q] == [m] + rest;
    assert QueueOk(s, q) && EntryOk(s, q, 0);
    if m.command == PING {
      assert InFlight(s, m.thread);
      NumbersHead(m.thread, m, rest);
      assert m.number == UpTo(s.sent[m.thread])[s.tally.received[m.thread]..][0];
    }
    assert Shape(s');
    forall t | 0 <= t < |s.sent| ensures InFlight(s', t) {
      ReceiveKeepsThread(s, q, t, s');
    }
    forall j | 0 <= j < |s'.queues| ensures QueueOk(s', j) {
      ReceiveKeepsQueue(s, q, j);
    }
  }

  lemma {:induction false} Reachable(w: Wiring, n: nat, numMsgs: int, acts: seq<Action>)
    ensures var s := Run(Start(w, n, numMsgs), acts);
            Inv(s) && s.wiring == w && s.numMsgs == numMsgs && |s.sent| == n
  {
    if acts == [] {
      var s := Start(w, n, numMsgs);
      forall i | 0 <= i < n ensures InFlight(s, i) {
        assert UpTo(0)[0..] == [];
      }
    } else {
      var a := acts[|acts| - 1];
      Reachable(w, n, numMsgs, acts[..|acts| - 1]);
      var s := Run(Start(w, n, numMsgs), acts[..|acts| - 1]);
      if Enabled(s, a) {
        match a
        case Send(i) => SendKeepsInv(s, i);
        case Shutdown => ShutdownKeepsInv(s);
        case Receive(q) => ReceiveKeepsInv(s, q);
      }
    }
  }

  // ---- the verdict

  ghost predicate PingQueued(s: Sys) {
    exists j, k :: 0 <= j < |s.queues| && 0 <= k < |s.queues[j]| && s.queues[j][k].command == PING
  }

  function SentMap(s: Sys): map<Thread, int> {
    map t | 0 <= t < |s.sent| :: s.sent[t]
  }

  ghost predicate Passes(s: Sys) {
    !Verdict(SentMap(s), s.tally.received, s.numMsgs, s.tally.failed)
  }

  /** A run that has consumed EXIT (which is when checkResults looks) passes iff
      the limit was a real one and nothing was left queued behind EXIT. */
  lemma RunVerdict(w: Wiring, n: nat, numMsgs: int, acts: seq<Action>)
    requires !Run(Start(w, n, numMsgs), acts).tally.keepGoing
    ensures var s := Run(Start(w, n, numMsgs), acts);
            Passes(s) <==> (n == 0 || numMsgs >= 1) && !PingQueued(s)
  {
    Reachable(w, n, numMsgs, acts);
    var s := Run(Start(w, n, numMsgs), acts);
    if PingQueued(s) {
      QueuedPingHasThread(s);
    }
    if n > 0 {
      var sent := SentMap(s);
      assert forall t :: t in sent ==> sent[t] == Quota(numMsgs);
      if numMsgs < 1 {
        assert 0 in sent && sent[0] != numMsgs;
      } else {
        QueuedMeansMissing(s);
      }
    }
  }

  /** And the verdict is final: once EXIT is consumed nothing is sent or received any more,
      so a ping that is then queued never reaches the detector. */
  lemma {:induction false} RunIsFinal(w: Wiring, n: nat, numMsgs: int, acts: seq<Action>, s: Sys, more: seq<Action>)
    requires s == Run(Start(w, n, numMsgs), acts) && !s.tally.keepGoing
    ensures Run(s, more) == s
  {
    if more != [] {
      Reachable(w, n, numMsgs, acts);
      RunIsFinal(w, n, numMsgs, acts, s, more[..|more| - 1]);
    }
  }

  lemma QueuedPingHasThread(s: Sys)
    requires Inv(s) && PingQueued(s)
    ensures exists t: Thread :: t < |s.sent| && Numbers(t, s.queues[Route(s.wiring, t)]) != []
  {
    var j, k :| 0 <= j < |s.queues| && 0 <= k < |s.queues[j]| && s.queues[j][k].command == PING;
    assert QueueOk(s, j) && EntryOk(s, j, k);
    NoNumbersIff(s.queues[j][k].thread, s.queues[j]);
  }

  lemma QueuedMeansMissing(s: Sys)
    requires Inv(s) && s.exitSent && s.numMsgs >= 1
    ensures PingQueued(s) <==> exists t :: t in s.tally.received && s.tally.received[t] != s.numMsgs
  {
    if PingQueued(s) {
      QueuedPingHasThread(s);
      var t: Thread :| t < |s.sent| && Numbers(t, s.queues[Route(s.wiring, t)]) != [];
      assert InFlight(s, t);
      assert t in s.tally.received && s.tally.received[t] != s.numMsgs;
    }
    if t :| t in s.tally.received && s.tally.received[t] != s.numMsgs {
      assert InFlight(s, t);
      var j := Route(s.wiring, t);
      assert |Numbers(t, s.queues[j])| > 0;
      NoNumbersIff(t, s.queues[j]);
    }
  }

  // ---- every run ends

  /** Pings still to send, twice each, plus messages queued, plus EXIT. */
  function Work(s: Sys): int {
    2 * Sum(Unsent(s)) + Sum(Queued(s)) + (if s.exitSent then 0 else 2)
  }

  function Unsent(s: Sys): seq<int> {
    seq(|s.sent|, i requires 0 <= i < |s.sent| => Quota(s.numMsgs) - s.sent[i])
  }

  function Queued(s: Sys): seq<int> {
    seq(|s.queues|, j requires 0 <= j < |s.queues| => |s.queues[j]|)
  }

  lemma StepWorks(s: Sys, a: Action)
    requires Enabled(s, a)
    ensures Work(Step(s, a)) == Work(s) - 1
  {
    var s' := Step(s, a);
    match a
    case Send(i) =>
      var q := Route(s.wiring, i);
      assert Unsent(s') == Unsent(s)[i := Unsent(s)[i] - 1];
      SumUpdate(Unsent(s), i, Unsent(s)[i] - 1);
      assert Queued(s') == Queued(s)[q := Queued(s)[q] + 1];
      SumUpdate(Queued(s), q, Queued(s)[q] + 1);
    case Shutdown =>
      var q := |s.queues| - 1;
      assert Unsent(s') == Unsent(s);
      assert Queued(s') == Queued(s)[q := Queued(s)[q] + 1];
      SumUpdate(Queued(s), q, Queued(s)[q] + 1);
    case Receive(q) =>
      assert Unsent(s') == Unsent(s);
      assert Queued(s') == Queued(s)[q := Queued(s)[q] - 1];
      SumUpdate(Queued(s), q, Queued(s)[q] - 1);
  }

  function Steps(s: Sys, acts: seq<Action>): nat {
    if acts == [] then 0 else
      var pre := acts[..|acts| - 1];
      Steps(s, pre) + if Enabled(Run(s, pre), acts[|acts| - 1]) then 1 else 0
  }

  lemma {:induction false} WorkCounts(s: Sys, acts: seq<Action>)
    ensures Work(Run(s, acts)) == Work(s) - Steps(s, acts)
  {
    if acts != [] {
      WorkCounts(s, acts[..|acts| - 1]);
      var mid, a := Run(s, acts[..|acts| - 1]), acts[|acts| - 1];
      if Enabled(mid, a) {
        StepWorks(mid, a);
      }
    }
  }

  /** No deadlock and no endless run: a run makes at most 2n max(1, numMsgs) + 2 steps,
      and until EXIT has been consumed there is always one to make. */
  lemma EveryRunEnds(w: Wiring, n: nat, numMsgs: int, acts: seq<Action>)
    ensures var s := Run(Start(w, n, numMsgs), acts);
            && Steps(Start(w, n, numMsgs), acts) <= 2 * (n * Quota(numMsgs)) + 2
            && (s.tally.keepGoing ==> exists a :: Enabled(s, a))
  {
    var s0, s := Start(w, n, numMsgs), Run(Start(w, n, numMsgs), acts);
    Reachable(w, n, numMsgs, acts);
    WorkCounts(s0, acts);
    SumBound(Unsent(s0), Quota(numMsgs));
    SumBound(Queued(s0), 0);
    forall i | 0 <= i < n ensures Unsent(s)[i] >= 0 {
      assert InFlight(s, i);
    }
    NonNegative(Unsent(s));
    NonNegative(Queued(s));
    if s.tally.keepGoing {
      SomethingEnabled(s);
    }
  }

  lemma SomethingEnabled(s: Sys)
    requires Inv(s) && s.tally.keepGoing
    ensures exists a :: Enabled(s, a)
  {
    var last := |s.queues| - 1;
    assert QueueOk(s, last);
    if i :| 0 <= i < |s.sent| && !Returned(s, i) {
      assert Enabled(s, Send(i));
    } else if !s.exitSent {
      assert Enabled(s, Shutdown);
    } else {
      assert Enabled(s, Receive(last));
    }
  }

  /** With the shared FIFO, EXIT is consumed only after every ping. */
  lemma SharedFifoDrains(n: nat, numMsgs: int, acts: seq<Action>)
    requires !Run(Start(ClientServer, n, numMsgs), acts).tally.keepGoing
    ensures var s := Run(Start(ClientServer, n, numMsgs), acts);
            && |s.sent| == n && !PingQueued(s)
            && forall t :: 0 <= t < n ==> t in s.tally.received && s.tally.received[t] == s.sent[t]
  {
    Reachable(ClientServer, n, numMsgs, acts);
    var s := Run(Start(ClientServer, n, numMsgs), acts);
    assert QueueOk(s, 0);
    forall t | 0 <= t < n ensures s.tally.received[t] == s.sent[t] {
      assert InFlight(s, t);
      assert |UpTo(s.sent[t])[s.tally.received[t]..]| == 0;
    }
  }

  /** Hence the client/server program always passes, for any number of threads and
      any interleaving. */
  lemma ClientServerPasses(n: nat, numMsgs: int, acts: seq<Action>)
    requires numMsgs >= 1 && !Run(Start(ClientServer, n, numMsgs), acts).tally.keepGoing
    ensures Passes(Run(Start(ClientServer, n, numMsgs), acts))
  {
    RunVerdict(ClientServer, n, numMsgs, acts);
    SharedFifoDrains(n, numMsgs, acts);
  }

  // ---- which programs pass

  /** Every finished run passes. */
  ghost predicate AlwaysPasses(w: Wiring, n: nat, numMsgs: int) {
    forall acts :: !Run(Start(w, n, numMsgs), acts).tally.keepGoing ==> Passes(Run(Start(w, n, numMsgs), acts))
  }

  /** Every thread has sent its quota, and nothing has been received. */
  ghost predicate Untouched(s: Sys) {
    s.tally == Fresh(FirstThreads(|s.sent|)) && !s.exitSent
  }

  lemma RunOneMore(s: Sys, acts: seq<Action>, a: Action)
    ensures Run(s, acts + [a]) == Step(Run(s, acts), a)
  {
    assert (acts + [a])[..|acts|] == acts;
  }

  /** The command threads run ahead of the receiver to their limits. */
  lemma {:induction false} SendAll(w: Wiring, n: nat, numMsgs: int, acts: seq<Action>) returns (all: seq<Action>, s: Sys)
    requires Untouched(Run(Start(w, n, numMsgs), acts))
    ensures s == Run(Start(w, n, numMsgs), all) && Untouched(s)
    ensures forall i :: 0 <= i < |s.sent| ==> s.sent[i] == Quota(numMsgs)
    decreases Work(Run(Start(w, n, numMsgs), acts))
  {
    Reachable(w, n, numMsgs, acts);
    s := Run(Start(w, n, numMsgs), acts);
    forall i | 0 <= i < n ensures s.sent[i] <= Quota(numMsgs) {
      assert InFlight(s, i);
    }
    if i :| 0 <= i < n && s.sent[i] != Quota(numMsgs) {
      assert Enabled(s, Send(i));
      RunOneMore(Start(w, n, numMsgs), acts, Send(i));
      StepWorks(s, Send(i));
      WorkBound(w, n, numMsgs, acts);
      all, s := SendAll(w, n, numMsgs, acts + [Send(i)]);
    } else {
      all := acts;
    }
  }

  lemma WorkBound(w: Wiring, n: nat, numMsgs: int, acts: seq<Action>)
    ensures Work(Run(Start(w, n, numMsgs), acts)) >= 0
  {
    var s := Run(Start(w, n, numMsgs), acts);
    Reachable(w, n, numMsgs, acts);
    forall i | 0 <= i < n ensures Unsent(s)[i] >= 0 {
      assert InFlight(s, i);
    }
    NonNegative(Unsent(s));
    NonNegative(Queued(s));
  }

  /** Whatever has happened, a run can be finished. */
  lemma {:induction false} Finishes(w: Wiring, n: nat, numMsgs: int, acts: seq<Action>) returns (all: seq<Action>)
    ensures !Run(Start(w, n, numMsgs), all).tally.keepGoing
    decreases Work(Run(Start(w, n, numMsgs), acts))
  {
    var s := Run(Start(w, n, numMsgs), acts);
    Reachable(w, n, numMsgs, acts);
    if s.tally.keepGoing {
      SomethingEnabled(s);
      var a :| Enabled(s, a);
      RunOneMore(Start(w, n, numMsgs), acts, a);
      StepWorks(s, a);
      WorkBound(w, n, numMsgs, acts);
      WorkBound(w, n, numMsgs, acts + [a]);
      all := Finishes(w, n, numMsgs, acts + [a]);
    } else {
      all := acts;
    }
  }

  /** With any threads at all, EXIT can overtake all the pings: it has a queue to itself. */
  lemma ExitOvertakes(n: nat, numMsgs: int) returns (acts: seq<Action>)
    requires n > 0
    ensures var s := Run(Start(PushPull, n, numMsgs), acts);
            !s.tally.keepGoing && PingQueued(s)
  {
    var s0 := Start(PushPull, n, numMsgs);
    var s, all;
    all, s := SendAll(PushPull, n, numMsgs, []);
    Reachable(PushPull, n, numMsgs, all);
    assert QueueOk(s, n);
    assert s.queues[n] == [] || EntryOk(s, n, 0);
    assert Enabled(s, Shutdown);
    RunOneMore(s0, all, Shutdown);
    var s2 := Step(s, Shutdown);
    assert s2.queues[n] == [ControlMsg(EXIT, 0, 0)];
    RunOneMore(s0, all + [Shutdown], Receive(n));
    acts := all + [Shutdown] + [Receive(n)];
    FirstPingQueued(s);
    var k :| 0 <= k < |s.queues[0]| && s.queues[0][k].command == PING;
    assert Step(s2, Receive(n)).queues[0][k].command == PING;
  }

  lemma FirstPingQueued(s: Sys)
    requires Inv(s) && Untouched(s) && s.wiring == PushPull && |s.sent| > 0 && s.sent[0] == Quota(s.numMsgs)
    ensures exists k :: 0 <= k < |s.queues[0]| && s.queues[0][k].command == PING
  {
    assert InFlight(s, 0);
    assert |UpTo(s.sent[0])[0..]| > 0;
    NoNumbersIff(0, s.queues[0]);
  }

  /** Exactly which programs pass in every run: those without command threads, and the
      client/server one with a limit of at least one. */
  lemma AlwaysPassesIff(w: Wiring, n: nat, numMsgs: int)
    ensures AlwaysPasses(w, n, numMsgs) <==> n == 0 || (w == ClientServer && numMsgs >= 1)
  {
    if n == 0 {
      forall acts | !Run(Start(w, n, numMsgs), acts).tally.keepGoing ensures Passes(Run(Start(w, n, numMsgs), acts)) {
        RunVerdict(w, n, numMsgs, acts);
        Reachable(w, n, numMsgs, acts);
        NoThreadsNoPings(Run(Start(w, n, numMsgs), acts));
      }
    } else if w == PushPull {
      var acts := ExitOvertakes(n, numMsgs);
      RunVerdict(w, n, numMsgs, acts);
    } else if numMsgs >= 1 {
      forall acts | !Run(Start(w, n, numMsgs), acts).tally.keepGoing ensures Passes(Run(Start(w, n, numMsgs), acts)) {
        ClientServerPasses(n, numMsgs, acts);
      }
    } else {
      var acts := Finishes(w, n, numMsgs, []);
      RunVerdict(w, n, numMsgs, acts);
    }
  }

  lemma NoThreadsNoPings(s: Sys)
    requires Inv(s) && |s.sent| == 0
    ensures !PingQueued(s)
  {
    if PingQueued(s) {
      QueuedPingHasThread(s);
    }
  }
}
