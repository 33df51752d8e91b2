/** How a socket whose poll was interrupted comes to look at its commands again, and when it
    does not. */
module Starvation {
  import opened SocketState
  import opened Mailbox
  import opened SocketCalls
  import opened SocketIO

  /** A socket past the poll rate whatever it has handed out so far: messages that keep
      coming keep its commands waiting. */
  lemma PastRateStarves(s: Sock)
    requires !s.ctxTerminated && s.ticks >= s.opts.inboundPollRate
    ensures !NeverStarves(s)
  {
    var rate := s.opts.inboundPollRate;
    var c := RecvCall(true, false, UNDISTURBED, Accepted, UNDISTURBED, Again, 0, []);
    var calls := seq(rate + 1, _ => c);
    forall i | 0 <= i < |calls| ensures !PollInterrupted(RunRecv(s, calls[..i]), calls[i]) {
      StarvedAfterInterrupt(s, calls[..i]);
    }
    StarvedAfterInterrupt(s, calls);
    assert Uninterrupted(s, calls);
    assert RunRecv(s, calls).undrained > rate;
  }

  /** The call must not block. */
  predicate AtOnce(s: Sock, c: RecvCall) {
    c.dontWait || s.opts.rcvtimeo == 0
  }

  /** The call is told "again" first and then reads the mailbox with success: it must not
      block and its second reading succeeds, or it blocks and gets a message. */
  predicate Heals(s: Sock, c: RecvCall) {
    && !s.ctxTerminated && c.valid && TickPoll(s, c).1 == Ok && c.x == Again
    && if AtOnce(s, c) then Drain(TickPoll(s, c).0, c.poll2).1 == Ok else Recv(s, c).outcome == Done
  }

  /** Safe, and with as few undrained messages as that takes. */
  ghost predicate Safe(s: Sock) {
    s.ticks < s.opts.inboundPollRate && s.undrained <= s.ticks + 1
  }

  lemma BlockingTicks(s: Sock, c: RecvCall, t: Trace)
    requires !s.ctxTerminated && t == RecvBlocking(s, c)
    ensures t.sock.opts == s.opts
    ensures if t.outcome == Done then t.sock.ticks == 0 && t.sock.undrained == 1 else t.sock.ticks == s.ticks
  {
    var end := End(s.opts.rcvtimeo, c.start);
    LoopKeeps(s, s.opts.rcvtimeo, end, s.ticks != 0, c.wakes, Loop(s, s.opts.rcvtimeo, end, s.ticks != 0, c.wakes));
  }

  lemma NowTicks(s: Sock, c: RecvCall, t: Trace)
    requires !s.ctxTerminated && t == RecvNow(s, c)
    ensures t.sock.opts == s.opts
    ensures if Drain(s, c.poll2).1 == Ok then t.sock.ticks == 0 && t.sock.undrained <= 1
            else t.sock.ctxTerminated || t.sock.ticks == s.ticks
  {
    DrainFrame(s, c.poll2);
  }

  lemma HealedIsSafe(s: Sock, c: RecvCall)
    requires Heals(s, c) && s.opts.inboundPollRate > 0
    ensures var s' := Recv(s, c).sock; s'.ticks == 0 && s'.undrained <= 1 && Safe(s') && s'.opts == s.opts
  {
    TickPollFrame(s, c);
    var s1 := TickPoll(s, c).0;
    if AtOnce(s, c) {
      NowTicks(s1, c, RecvNow(s1, c));
    } else {
      BlockingTicks(s1, c, RecvBlocking(s1, c));
    }
  }

  /** Past the rate, only a call that heals brings ticks down. */
  lemma UnhealedStays(s: Sock, c: RecvCall)
    requires !s.ctxTerminated && s.ticks >= s.opts.inboundPollRate && !Heals(s, c)
    requires !Recv(s, c).sock.ctxTerminated
    ensures var s' := Recv(s, c).sock; s'.ticks >= s'.opts.inboundPollRate && s'.opts == s.opts
  {
    if c.valid {
      TickPollFrame(s, c);
      var s1 := TickPoll(s, c).0;
      if c.x == Again && AtOnce(s, c) {
        NowTicks(s1, c, RecvNow(s1, c));
      } else if c.x == Again {
        BlockingTicks(s1, c, RecvBlocking(s1, c));
      }
    }
  }

  /** Exactly when one recv makes a socket past the rate safe again. */
  lemma RecvHeals(s: Sock, c: RecvCall)
    requires !s.ctxTerminated && 0 < s.opts.inboundPollRate <= s.ticks && !Recv(s, c).sock.ctxTerminated
    ensures NeverStarves(Recv(s, c).sock) <==> Heals(s, c)
    ensures Recv(s, c).sock.ticks == 0 <==> Heals(s, c)
  {
    if Heals(s, c) {
      HealedIsSafe(s, c);
      StarvesIff(Recv(s, c).sock);
    } else {
      UnhealedStays(s, c);
      PastRateStarves(Recv(s, c).sock);
    }
  }

  // ---- runs

  datatype Effect = Heal | Interrupt | Neither

  ghost function EffectOf(s: Sock, c: RecvCall): Effect {
    if Heals(s, c) then Heal else if PollInterrupted(s, c) then Interrupt else Neither
  }

  /** What each of the calls does. */
  ghost function Effects(s: Sock, calls: seq<RecvCall>): (es: seq<Effect>)
    ensures |es| == |calls|
  {
    if calls == [] then [] else
      var pre := calls[..|calls| - 1];
      Effects(s, pre) + [EffectOf(RunRecv(s, pre), calls[|calls| - 1])]
  }

  /** Some call heals, and no poll is interrupted after it. */
  ghost predicate Healed(es: seq<Effect>) {
    exists i :: 0 <= i < |es| && es[i] == Heal && forall j :: i < j < |es| ==> es[j] != Interrupt
  }

  lemma HealedLast(es: seq<Effect>, e: Effect)
    ensures Healed(es + [e]) <==> e == Heal || (Healed(es) && e != Interrupt)
  {
    var all := es + [e];
    if e == Heal {
      assert all[|es|] == Heal;
    } else if Healed(es) && e != Interrupt {
      var i :| 0 <= i < |es| && es[i] == Heal && forall j :: i < j < |es| ==> es[j] != Interrupt;
      assert all[i] == Heal;
    }
    if Healed(all) && e != Heal {
      var i :| 0 <= i < |all| && all[i] == Heal && forall j :: i < j < |all| ==> all[j] != Interrupt;
      assert es[i] == Heal && all[|es|] != Interrupt;
      assert forall j :: i < j < |es| ==> es[j] == all[j];
    }
  }

  /** Where one call leads from a socket that is safe, or past the rate. */
  lemma OneCall(s: Sock, c: RecvCall)
    requires !s.ctxTerminated && s.opts.inboundPollRate > 0 && (Safe(s) || s.ticks >= s.opts.inboundPollRate)
    requires !Recv(s, c).sock.ctxTerminated
    ensures var s' := Recv(s, c).sock;
            && s'.opts == s.opts && (Safe(s') || s'.ticks >= s'.opts.inboundPollRate)
            && (Safe(s') <==> Heals(s, c) || (Safe(s) && !PollInterrupted(s, c)))
  {
    if Heals(s, c) {
      HealedIsSafe(s, c);
    } else if PollInterrupted(s, c) {
      InterruptedPollSticks(s, c);
    } else if Safe(s) {
      RecvKeepsTicks(s, c);
    } else {
      UnhealedStays(s, c);
    }
  }

  lemma {:induction false} SafeIffHealed(s: Sock, calls: seq<RecvCall>)
    requires !s.ctxTerminated && 0 < s.opts.inboundPollRate <= s.ticks && !RunRecv(s, calls).ctxTerminated
    ensures var s' := RunRecv(s, calls);
            && s'.opts == s.opts && (Safe(s') || s'.ticks >= s'.opts.inboundPollRate)
            && (Safe(s') <==> Healed(Effects(s, calls)))
  {
    if calls != [] {
      var pre, c := calls[..|calls| - 1], calls[|calls| - 1];
      assert !RunRecv(s, pre).ctxTerminated;
      SafeIffHealed(s, pre);
      OneCall(RunRecv(s, pre), c);
      HealedLast(Effects(s, pre), EffectOf(RunRecv(s, pre), c));
    }
  }

  /** Over any calls that follow an interrupted poll: the socket is safe from starvation
      iff some call has healed it and no poll has been interrupted since. */
  lemma RunHeals(s: Sock, calls: seq<RecvCall>)
    requires !s.ctxTerminated && 0 < s.opts.inboundPollRate <= s.ticks && !RunRecv(s, calls).ctxTerminated
    ensures NeverStarves(RunRecv(s, calls)) <==> Healed(Effects(s, calls))
  {
    SafeIffHealed(s, calls);
    var s' := RunRecv(s, calls);
    if Healed(Effects(s, calls)) {
      StarvesIff(s');
    } else {
      PastRateStarves(s');
    }
  }
}
