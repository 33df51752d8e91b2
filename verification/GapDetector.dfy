/** The sequence-number harness of threads/common.h: numbered pings from many
    threads, a receiver that looks for gaps, and the verdict at the end of a run. */
module GapDetector {

  type Thread = nat

  const PING := 'P'
  const EXIT := 'X'

  datatype ControlMsg = ControlMsg(command: char, thread: Thread, number: int)

  /** The receiver's globals. */
  datatype Tally = Tally(received: map<Thread, int>, keepGoing: bool, failed: bool)

  function Seen(received: map<Thread, int>, t: Thread): int {
    if t in received then received[t] else 0
  }

  /** One control message. */
  function Process(y: Tally, m: ControlMsg): Tally {
    if m.command == EXIT then
      y.(keepGoing := false)
    else if m.command == PING then
      var max := Seen(y.received, m.thread);
      Tally(y.received[m.thread := if m.number > max then m.number else max],
            y.keepGoing,
            y.failed || m.number != max + 1)
    else
      y
  }

  /** The receive loop: messages are consumed while keepGoing is set. */
  function ProcessAll(y: Tally, msgs: seq<ControlMsg>): Tally {
    if msgs == [] then y else
      var before := ProcessAll(y, msgs[..|msgs| - 1]);
      if before.keepGoing then Process(before, msgs[|msgs| - 1]) else before
  }

  /** What checkResults makes of the two maps and the failed flag. */
  ghost predicate Verdict(sent: map<Thread, int>, received: map<Thread, int>, numMsgs: int, failed: bool) {
    || failed
    || (exists t :: t in sent && sent[t] != numMsgs)
    || (exists t :: t in received && received[t] != numMsgs)
  }

  // ---- what the detector should mean, said without the detector

  /** The numbers carried by thread t's pings, in delivery order. */
  function Numbers(t: Thread, msgs: seq<ControlMsg>): seq<int> {
    if msgs == [] then [] else
      var m := msgs[|msgs| - 1];
      Numbers(t, msgs[..|msgs| - 1]) + (if m.command == PING && m.thread == t then [m.number] else [])
  }

  function UpTo(k: nat): (r: seq<int>)
    ensures |r| == k && forall i :: 0 <= i < k ==> r[i] == i + 1
  {
    seq(k, i => i + 1)
  }

  ghost predicate NoExit(msgs: seq<ControlMsg>) {
    forall i :: 0 <= i < |msgs| ==> msgs[i].command != EXIT
  }

  /** The threads a run is about: those registered up front, and any that pinged. */
  ghost predicate Takes(threads: set<Thread>, msgs: seq<ControlMsg>, t: Thread) {
    t in threads || exists i :: 0 <= i < |msgs| && msgs[i].command == PING && msgs[i].thread == t
  }

  ghost predicate Gapless(t: Thread, msgs: seq<ControlMsg>) {
    Numbers(t, msgs) == UpTo(|Numbers(t, msgs)|)
  }

  function FirstThreads(n: nat): (r: set<Thread>)
    ensures forall t: Thread :: t in r <==> t < n
  {
    if n == 0 then {} else FirstThreads(n - 1) + {n - 1}
  }

  function Fresh(threads: set<Thread>): Tally {
    Tally(map t | t in threads :: 0, true, false)
  }

  lemma NumbersOfStranger(t: Thread, msgs: seq<ControlMsg>)
    requires !Takes({}, msgs, t)
    ensures Numbers(t, msgs) == []
  {
    if msgs != [] {
      var pre := msgs[..|msgs| - 1];
      assert forall i :: 0 <= i < |pre| ==> pre[i] == msgs[i];
      NumbersOfStranger(t, pre);
    }
  }

  /** The detector's whole state after any delivery without EXIT: it has failed
      iff some thread's pings were not 1, 2, 3, ..., and while it has not, its
      map holds the number of pings delivered. */
  lemma {:induction false} DetectorState(threads: set<Thread>, msgs: seq<ControlMsg>)
    requires NoExit(msgs)
    ensures var y := ProcessAll(Fresh(threads), msgs);
            && y.keepGoing
            && (forall t :: t in y.received <==> Takes(threads, msgs, t))
            && (!y.failed <==> forall t :: Gapless(t, msgs))
            && (!y.failed ==> forall t :: t in y.received ==> y.received[t] == |Numbers(t, msgs)|)
  {
    var start := Fresh(threads);
    if msgs == [] {
      forall t ensures Gapless(t, msgs) {
        assert Numbers(t, msgs) == [];
      }
    } else {
      var pre, m := msgs[..|msgs| - 1], msgs[|msgs| - 1];
      DetectorState(threads, pre);
      var y0, y := ProcessAll(start, pre), ProcessAll(start, msgs);
      assert y == Process(y0, m);
      forall t ensures Takes(threads, msgs, t) <==> (Takes(threads, pre, t) || (m.command == PING && m.thread == t)) {
        assert forall i :: 0 <= i < |pre| ==> pre[i] == msgs[i];
      }
      if m.command == PING {
        GaplessStep(threads, pre, m);
        assert msgs == pre + [m];
      } else {
        assert forall t :: Numbers(t, msgs) == Numbers(t, pre);
        assert forall t :: Gapless(t, msgs) <==> Gapless(t, pre);
      }
    }
  }

  /** Adding one ping keeps every thread gapless iff it carries the next number. */
  lemma GaplessStep(threads: set<Thread>, pre: seq<ControlMsg>, m: ControlMsg)
    requires m.command == PING
    ensures forall t :: t != m.thread ==> Numbers(t, pre + [m]) == Numbers(t, pre)
    ensures Numbers(m.thread, pre + [m]) == Numbers(m.thread, pre) + [m.number]
    ensures (forall t :: Gapless(t, pre + [m]))
       <==> ((forall t :: Gapless(t, pre)) && m.number == |Numbers(m.thread, pre)| + 1)
    ensures !Takes(threads, pre, m.thread) ==> Numbers(m.thread, pre) == []
  {
    var msgs := pre + [m];
    assert msgs[..|msgs| - 1] == pre;
    if !Takes(threads, pre, m.thread) {
      NumbersOfStranger(m.thread, pre);
    }
    var old', new' := Numbers(m.thread, pre), Numbers(m.thread, msgs);
    assert new' == old' + [m.number];
    if Gapless(m.thread, msgs) {
      assert old' == new'[..|old'|];
      assert new'[|old'|] == |old'| + 1;
      assert Gapless(m.thread, pre);
    }
    if Gapless(m.thread, pre) && m.number == |old'| + 1 {
      assert new' == UpTo(|old'| + 1);
    }
    forall t | t != m.thread ensures Gapless(t, msgs) <==> Gapless(t, pre) {
    }
    if forall t :: Gapless(t, msgs) {
      forall t ensures Gapless(t, pre) {
        assert Gapless(t, msgs);
      }
    }
  }

  /** Nothing after EXIT is looked at. */
  lemma {:induction false} AfterExit(y: Tally, before: seq<ControlMsg>, x: ControlMsg, rest: seq<ControlMsg>)
    requires x.command == EXIT && ProcessAll(y, before).keepGoing
    ensures ProcessAll(y, before + [x] + rest) == ProcessAll(y, before).(keepGoing := false)
  {
    var all := before + [x] + rest;
    if rest == [] {
      assert all[..|all| - 1] == before;
    } else {
      assert all[..|all| - 1] == before + [x] + rest[..|rest| - 1];
      AfterExit(y, before, x, rest[..|rest| - 1]);
    }
  }

  /** Exactness: whatever is delivered -- lost, repeated, reordered or interleaved
      pings, then an EXIT -- the run passes iff every thread sent numMsgs pings and
      exactly 1..numMsgs of each arrived, in order. */
  lemma ExactDetector(threads: set<Thread>, before: seq<ControlMsg>, x: ControlMsg, rest: seq<ControlMsg>,
                      sent: map<Thread, int>, numMsgs: nat)
    requires NoExit(before) && x.command == EXIT
    ensures var y := ProcessAll(Fresh(threads), before + [x] + rest);
            !Verdict(sent, y.received, numMsgs, y.failed)
            <==> (&& (forall t :: t in sent ==> sent[t] == numMsgs)
                  && (forall t :: Takes(threads, before, t) ==> Numbers(t, before) == UpTo(numMsgs)))
  {
    DetectorState(threads, before);
    AfterExit(Fresh(threads), before, x, rest);
    var y := ProcessAll(Fresh(threads), before);
    if forall t :: Takes(threads, before, t) ==> Numbers(t, before) == UpTo(numMsgs) {
      forall t ensures Gapless(t, before) {
        if !Takes(threads, before, t) {
          assert !Takes({}, before, t);
          NumbersOfStranger(t, before);
        }
      }
    }
    if !y.failed {
      forall t | Takes(threads, before, t)
        ensures Numbers(t, before) == UpTo(numMsgs) <==> y.received[t] == numMsgs
      {
        assert Gapless(t, before);
      }
    }
  }

  // ---- the program

  function Ping(t: Thread, k: int): ControlMsg { ControlMsg(PING, t, k) }

  /** How many pings a command thread sends when nobody stops it: the loop body
      runs once before the limit is looked at. */
  function Quota(numMsgs: int): nat {
    if numMsgs < 1 then 1 else numMsgs
  }

  class Harness {
    var maxSent: map<Thread, int>
    var maxReceived: map<Thread, int>
    var keepGoing: bool
    var failed: bool
    const numMsgs: int

    function State(): Tally reads this {
      Tally(maxReceived, keepGoing, failed)
    }

    /** Both maps are filled with zeroes before any thread starts. */
    constructor (numThreads: nat, numMsgs: int)
      ensures this.numMsgs == numMsgs
      ensures State() == Fresh(FirstThreads(numThreads))
      ensures maxSent == maxReceived
    {
      this.numMsgs := numMsgs;
      maxSent, maxReceived := map[], map[];
      keepGoing, failed := true, false;
      new;
      for i := 0 to numThreads
        invariant State() == Fresh(FirstThreads(i)) && maxSent == maxReceived
      {
        maxSent := maxSent[i := 0];
        maxReceived := maxReceived[i := 0];
      }
    }

    /** One command thread; it finds keepGoing set for the first `turns` turns. */
    method CommandLoop(t: Thread, turns: nat) returns (out: seq<ControlMsg>)
      requires t in maxSent && maxSent[t] == 0
      modifies this`maxSent
      ensures |out| == (if turns < Quota(numMsgs) then turns else Quota(numMsgs))
      ensures forall i :: 0 <= i < |out| ==> out[i] == Ping(t, i + 1)
      ensures Numbers(t, out) == UpTo(|out|)
      ensures maxSent == old(maxSent)[t := |out|]
    {
      out := [];
      var turn := 0;
      while turn < turns
        invariant turn <= turns && |out| == turn
        invariant turn == 0 || turn < Quota(numMsgs)
        invariant maxSent == old(maxSent)[t := turn]
        invariant forall i :: 0 <= i < |out| ==> out[i] == Ping(t, i + 1)
        invariant Numbers(t, out) == UpTo(|out|)
      {
        var nextMsgNum := maxSent[t];
        nextMsgNum := nextMsgNum + 1;
        maxSent := maxSent[t := nextMsgNum];
        GaplessStep({}, out, Ping(t, nextMsgNum));
        out := out + [Ping(t, nextMsgNum)];
        turn := turn + 1;
        if nextMsgNum >= numMsgs {
          break;
        }
      }
    }

    method ProcessControlMsg(m: ControlMsg)
      modifies this`maxReceived, this`keepGoing, this`failed
      ensures State() == Process(old(State()), m)
    {
      if m.command == EXIT {
        keepGoing := false;
      } else if m.command == PING {
        var maxMsgNum := Seen(maxReceived, m.thread);
        maxReceived := maxReceived[m.thread := maxMsgNum];
        if m.number != maxMsgNum + 1 {
          failed := true;
        }
        if m.number > maxMsgNum {
          maxReceived := maxReceived[m.thread := m.number];
        }
      }
    }

    /** The receive loop over what the control socket delivers. */
    method MainLoop(delivered: seq<ControlMsg>)
      modifies this`maxReceived, this`keepGoing, this`failed
      ensures State() == ProcessAll(old(State()), delivered)
    {
      var i := 0;
      while keepGoing && i < |delivered|
        invariant i <= |delivered|
        invariant State() == ProcessAll(old(State()), delivered[..i])
      {
        assert delivered[..i + 1][..i] == delivered[..i];
        ProcessControlMsg(delivered[i]);
        i := i + 1;
      }
      assert delivered[..|delivered|] == delivered;
      StoppedForGood(old(State()), delivered, i);
    }

    method CheckResults()
      modifies this`failed
      ensures failed <==> Verdict(maxSent, maxReceived, numMsgs, old(failed))
    {
      var bad := AnyDiffers(maxSent, numMsgs);
      if bad {
        failed := true;
      }
      bad := AnyDiffers(maxReceived, numMsgs);
      if bad {
        failed := true;
      }
    }
  }

  lemma {:induction false} StoppedForGood(y: Tally, msgs: seq<ControlMsg>, i: nat)
    requires i <= |msgs| && (i == |msgs| || !ProcessAll(y, msgs[..i]).keepGoing)
    ensures ProcessAll(y, msgs) == ProcessAll(y, msgs[..i])
  {
    if i == |msgs| {
      assert msgs[..i] == msgs;
    } else {
      var pre := msgs[..|msgs| - 1];
      assert pre[..i] == msgs[..i];
      StoppedForGood(y, pre, i);
    }
  }

  /** One pass of checkResults over a map. */
  method AnyDiffers(m: map<Thread, int>, v: int) returns (bad: bool)
    ensures bad <==> exists t :: t in m && m[t] != v
  {
    bad := false;
    var todo := m.Keys;
    while todo != {}
      invariant todo <= m.Keys
      invariant bad <==> exists t :: t in m && t !in todo && m[t] != v
      decreases todo
    {
      var t :| t in todo;
      if m[t] != v {
        bad := true;
      }
      todo := todo - {t};
    }
  }
}
