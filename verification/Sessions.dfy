/** Which of its sessions and listeners a socket tells to terminate while it reads its
    mailbox. */
module Sessions {
  import opened SocketState
  import opened Endpoints
  import opened Mailbox

  /** Some entry of a removed address is the child's. */
  ghost predicate EntryGone(es: seq<Entry>, gone: set<Addr>, c: Child) {
    exists e :: e in es && e.child == c && e.addr in gone
  }

  /** A child that is the socket's and has not been told. */
  ghost predicate Untold(s: Sock, c: Child) {
    !s.own.terminating && c in s.own.owned && c !in s.own.termSent
  }

  lemma CommandTells(s: Sock, cmd: Cmd, c: Child)
    requires Untold(s, c)
    ensures var s' := ProcessCommand(s, cmd);
            if cmd == TermReq(c) then c in s'.own.termSent else Untold(s', c)
  {
  }

  lemma {:induction false} RangeTells(o: OwnPart, range: seq<Entry>, c: Child)
    requires !o.terminating && c in o.owned && c !in o.termSent
    ensures var o' := TermChildren(o, range);
            !o'.terminating &&
            if exists e :: e in range && e.child == c then c in o'.termSent else c in o'.owned && c !in o'.termSent
  {
    if range != [] {
      var pre, last := range[..|range| - 1], range[|range| - 1];
      RangeTells(o, pre, c);
      assert range == pre + [last];
    }
  }

  lemma ReturnTells(s: Sock, t: Target, c: Child)
    requires Untold(s, c) && !t.Null?
    ensures var s' := EndIt(s, t).0;
            if (t.Known? || t.Tcp?) && EntryGone(s.endpoints, {Key(s.endpoints, t)}, c) then c in s'.own.termSent else Untold(s', c)
  {
    if t.Known? || t.Tcp? {
      MatchingIn(s.endpoints, Key(s.endpoints, t));
      RangeTells(s.own, Matching(s.endpoints, Key(s.endpoints, t)), c);
    }
  }

  /** One recv tells the child iff it asked to terminate, or its address is ended. */
  lemma OneRecvTells(s: Sock, signal: bool, c: Child)
    requires Untold(s, c) && (Fails(s, signal) ==> s.ending != [] && !s.ending[|s.ending| - 1].Null?)
    ensures var s' := OneRecv(s, signal);
            if TermReq(c) in Handled(s, signal) || EntryGone(s.endpoints, Removed(s, signal), c) then c in s'.own.termSent
            else Untold(s', c)
  {
    if Fails(s, signal) {
      var (s1, errno) := Failing(s, signal);
      ReturnTells(s1.(ending := s1.ending[..|s1.ending| - 1]), s.ending[|s.ending| - 1], c);
    } else {
      CommandTells(s.(mailbox := s.mailbox[1..]), s.mailbox[0], c);
    }
  }

  lemma {:induction false} RangeStaysTold(o: OwnPart, range: seq<Entry>, c: Child)
    requires c in o.termSent
    ensures c in TermChildren(o, range).termSent
  {
    if range != [] {
      RangeStaysTold(o, range[..|range| - 1], c);
    }
  }

  lemma OneRecvStaysTold(s: Sock, signal: bool, c: Child)
    requires c in s.own.termSent && (Fails(s, signal) ==> s.ending != [])
    ensures c in OneRecv(s, signal).own.termSent
  {
    if Fails(s, signal) && (s.ending[|s.ending| - 1].Known? || s.ending[|s.ending| - 1].Tcp?) {
      RangeStaysTold(s.own, Matching(s.endpoints, Key(s.endpoints, s.ending[|s.ending| - 1])), c);
    }
  }

  lemma {:induction false} ReadStaysTold(s: Sock, poll: Poll, depth: nat, c: Child)
    requires depth <= |s.ending| && c in s.own.termSent
    ensures c in ReadTo(s, poll, depth).sock.own.termSent
    decreases Work(s, poll)
  {
    var s1, signal := Arrive(s, Next(poll).arrived), Next(poll).signal;
    ArriveFrame(s, Next(poll).arrived);
    if !Over(s1, signal, depth) {
      OneRecvStaysTold(s1, signal, c);
      ReadStaysTold(OneRecv(s1, signal), Rest(poll), depth, c);
    }
  }

  ghost predicate RealTargets(ts: seq<Target>) {
    forall i :: 0 <= i < |ts| ==> !ts[i].Null?
  }

  lemma GoneLater(es: seq<Entry>, now: set<Addr>, later: set<Addr>, c: Child)
    requires !EntryGone(es, now, c)
    ensures EntryGone(es, now + later, c) <==> EntryGone(Without(es, now), later, c)
  {
    WithoutIn(es, now);
    if e :| e in es && e.child == c && e.addr in now + later {
      assert e in Without(es, now) && e.addr in later;
    }
  }

  lemma GoneAll(es: seq<Entry>, now: set<Addr>, later: set<Addr>, c: Child)
    requires EntryGone(es, now, c)
    ensures EntryGone(es, now + later, c)
  {
    var e :| e in es && e.child == c && e.addr in now;
    assert e.addr in now + later;
  }

  lemma OneRecvReal(s: Sock, signal: bool)
    requires RealTargets(s.ending) && (Fails(s, signal) ==> s.ending != [])
    ensures RealTargets(OneRecv(s, signal).ending)
  {
  }

  /** A child is told during a reading, with all that is nested in it, iff it asked to
      terminate or an address it is listed under was ended; otherwise it stays. */
  lemma {:induction false} ReadTells(s: Sock, poll: Poll, depth: nat, c: Child)
    requires depth <= |s.ending| && RealTargets(s.ending) && Untold(s, c)
    ensures var s', l := ReadTo(s, poll, depth).sock, LogTo(s, poll, depth);
            if TermReq(c) in l.handled || EntryGone(s.endpoints, l.gone, c) then c in s'.own.termSent else Untold(s', c)
    decreases Work(s, poll)
  {
    var s1, signal := Arrive(s, Next(poll).arrived), Next(poll).signal;
    ArriveFrame(s, Next(poll).arrived);
    if !Over(s1, signal, depth) {
      var s2 := OneRecv(s1, signal);
      var now, later := Removed(s1, signal), LogTo(s2, Rest(poll), depth).gone;
      OneRecvReal(s1, signal);
      OneRecvTells(s1, signal, c);
      OneRecvRemoves(s1, signal);
      if c in s2.own.termSent {
        ReadStaysTold(s2, Rest(poll), depth, c);
        if EntryGone(s1.endpoints, now, c) {
          GoneAll(s1.endpoints, now, later, c);
        }
      } else {
        ReadTells(s2, Rest(poll), depth, c);
        GoneLater(s1.endpoints, now, later, c);
      }
    }
  }
}
