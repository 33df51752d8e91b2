/** The command throttle of process_commands over whole sequences of calls. */
module Throttle {
  import opened SocketState
  import opened Mailbox
  import opened SocketCalls

  /** One call of process_commands and what it met. */
  datatype Visit = Visit(timeout: int, throttle: bool, tsc: nat, poll: Poll)

  /** Subject to the throttle: non-blocking, throttled, with a working counter. */
  predicate Limited(v: Visit) {
    v.timeout == 0 && v.throttle && v.tsc != 0
  }

  /** The visit reads the mailbox. */
  predicate Looks(s: Sock, v: Visit) {
    !(Limited(v) && Throttled(s, v.tsc))
  }

  function Visited(s: Sock, v: Visit): Sock {
    ProcessCommands(s, v.timeout, v.throttle, v.tsc, v.poll).0
  }

  function Run(s: Sock, vs: seq<Visit>): Sock {
    if vs == [] then s else Visited(Run(s, vs[..|vs| - 1]), vs[|vs| - 1])
  }

  ghost predicate LooksAt(s: Sock, vs: seq<Visit>, k: nat)
    requires k < |vs|
  {
    Limited(vs[k]) && Looks(Run(s, vs[..k]), vs[k])
  }

  lemma VisitClock(s: Sock, v: Visit)
    ensures Visited(s, v).opts == s.opts
    ensures Visited(s, v).lastTsc == if Limited(v) && Looks(s, v) then v.tsc else s.lastTsc
  {
    DrainFrame(s, v.poll);
    DrainFrame(s.(lastTsc := v.tsc), v.poll);
  }

  lemma {:induction false} RunOpts(s: Sock, vs: seq<Visit>)
    ensures Run(s, vs).opts == s.opts
  {
    if vs != [] {
      RunOpts(s, vs[..|vs| - 1]);
      VisitClock(Run(s, vs[..|vs| - 1]), vs[|vs| - 1]);
    }
  }

  lemma StandsOnce(s: Sock, vs: seq<Visit>, j: nat)
    requires j < |vs| && !LooksAt(s, vs, j)
    ensures Run(s, vs[..j + 1]).lastTsc == Run(s, vs[..j]).lastTsc
  {
    assert vs[..j + 1][..j] == vs[..j];
    VisitClock(Run(s, vs[..j]), vs[j]);
  }

  /** Between visits i and j, if no limited visit looked, the reference time stands. */
  lemma {:induction false} ReferenceStands(s: Sock, vs: seq<Visit>, i: nat, j: nat)
    requires i <= j <= |vs| && forall k :: i <= k < j ==> !LooksAt(s, vs, k)
    ensures Run(s, vs[..j]).lastTsc == Run(s, vs[..i]).lastTsc
  {
    if i < j {
      ReferenceStands(s, vs, i, j - 1);
      StandsOnce(s, vs, j - 1);
    }
  }

  /** The reference time after limited visit i is not later than i. */
  lemma ReferenceAfter(s: Sock, vs: seq<Visit>, i: nat)
    requires i < |vs| && Limited(vs[i])
    ensures Run(s, vs[..i + 1]).lastTsc <= vs[i].tsc
    ensures LooksAt(s, vs, i) ==> Run(s, vs[..i + 1]).lastTsc == vs[i].tsc
  {
    assert vs[..i + 1][..i] == vs[..i];
    VisitClock(Run(s, vs[..i]), vs[i]);
  }

  /** The window never slides: once a limited visit is more than the delay past any
      earlier one, the mailbox has been read in between or is read now -- however
      many throttled visits came between, and whatever the counter did. */
  lemma NeverPostponed(s: Sock, vs: seq<Visit>, i: nat, j: nat)
    requires i < j < |vs| && Limited(vs[i]) && Limited(vs[j])
    requires vs[j].tsc > vs[i].tsc + s.opts.maxCommandDelay
    ensures exists k :: i < k <= j && LooksAt(s, vs, k)
  {
    if forall k :: i < k < j ==> !LooksAt(s, vs, k) {
      ReferenceStands(s, vs, i + 1, j);
      ReferenceAfter(s, vs, i);
      RunOpts(s, vs[..j]);
      assert LooksAt(s, vs, j);
    }
  }

  /** Exactly when: with no limited read between i and j, limited visit j reads the
      mailbox iff the counter went backwards or is more than the delay past the read
      at i, whatever throttled visits came between. */
  lemma ReadsAreSpaced(s: Sock, vs: seq<Visit>, i: nat, j: nat)
    requires i < j < |vs| && LooksAt(s, vs, i) && Limited(vs[j])
    requires forall k :: i < k < j ==> !LooksAt(s, vs, k)
    ensures LooksAt(s, vs, j) <==> vs[j].tsc < vs[i].tsc || vs[j].tsc > vs[i].tsc + s.opts.maxCommandDelay
  {
    ReferenceStands(s, vs, i + 1, j);
    ReferenceAfter(s, vs, i);
    RunOpts(s, vs[..j]);
  }

  /** The socket as the visit's reading begins. */
  function Looking(s: Sock, v: Visit): Sock {
    if Limited(v) then s.(lastTsc := v.tsc) else s
  }

  /** A visit that is turned away by the throttle succeeds and changes nothing, not even the
      reference time. */
  lemma TurnedAway(s: Sock, v: Visit)
    requires !Looks(s, v)
    ensures ProcessCommands(s, v.timeout, v.throttle, v.tsc, v.poll) == (s, Ok)
  {
  }

  /** A visit that looks handles the commands oldest first: all that were queued and all
      that arrived, or up to the signal; and if none of them is a term_endpoint, each
      has been processed on the state its predecessor left. */
  lemma LookHandlesInOrder(s: Sock, v: Visit, s1: Sock, l: Log)
    requires Looks(s, v) && s1 == Looking(s, v) && l == DrainLog(s1, v.poll)
    ensures var (s', rc) := ProcessCommands(s, v.timeout, v.throttle, v.tsc, v.poll);
            && l.handled + s'.mailbox == s.mailbox + l.came
            && (rc != Err(EINTR) ==> s'.mailbox == [] && l.handled == s.mailbox + l.came)
            && ((forall i :: 0 <= i < |l.handled| ==> !l.handled[i].TermEp?) ==>
                  s'.(undrained := 0) == Take(Arrive(s1, l.came), |l.handled|).(undrained := 0))
  {
    DrainFrame(s1, v.poll);
    DrainHandles(s1, v.poll);
    if forall i :: 0 <= i < |l.handled| ==> !l.handled[i].TermEp? {
      ReadIsTake(s1, v.poll, |s1.ending|, l, ReadTo(s1, v.poll, |s1.ending|));
    }
  }
}
