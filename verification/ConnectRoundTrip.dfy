/** Any number of connects to one address, undone by one term_endpoint, whatever commands
    arrive during the calls. */
module ConnectRoundTrip {
  import opened Wrappers
  import opened SocketState
  import opened Endpoints
  import opened Mailbox
  import opened SocketCalls

  /** One call of connect: what it finds out, what it allocates, what it meets. */
  datatype Attempt = Attempt(lookup: Lookup, child: Child, pipe: Pipe, poll: Poll)

  function ConnectOne(s: Sock, addr: Addr, a: Attempt): (Sock, Rc) {
    Connect(s, addr, a.lookup, a.child, a.pipe, a.poll)
  }

  function ConnectAll(s: Sock, addr: Addr, calls: seq<Attempt>): Sock {
    if calls == [] then s else ConnectOne(ConnectAll(s, addr, calls[..|calls| - 1]), addr, calls[|calls| - 1]).0
  }

  /** The commands handled in a call, and the addresses removed on their request. */
  function CallLog(s: Sock, poll: Poll): Log {
    if s.ctxTerminated then Log([], [], {}) else DrainLog(s, poll)
  }

  function TermLog(s: Sock, t: Target, poll: Poll): Log {
    if s.ctxTerminated || t.Null? then Log([], [], {}) else LogTo(EnterTerm(s, t), poll, |s.ending| + 1)
  }

  /** The same for all the calls. */
  function HandledIn(s: Sock, addr: Addr, calls: seq<Attempt>): seq<Cmd> {
    if calls == [] then [] else
      var pre := calls[..|calls| - 1];
      HandledIn(s, addr, pre) + CallLog(ConnectAll(s, addr, pre), calls[|calls| - 1].poll).handled
  }

  function GoneIn(s: Sock, addr: Addr, calls: seq<Attempt>): set<Addr> {
    if calls == [] then {} else
      var pre := calls[..|calls| - 1];
      GoneIn(s, addr, pre) + CallLog(ConnectAll(s, addr, pre), calls[|calls| - 1].poll).gone
  }

  // ---- the endpoint map

  lemma RequestedBoth(a: seq<Cmd>, b: seq<Cmd>, x: Addr)
    requires Requested(a, [], x) || Requested(b, [], x)
    ensures Requested(a + b, [], x)
  {
    if i :| 0 <= i < |a| && a[i].TermEp? && x in Forms(a[i].target) {
      assert (a + b)[i].TermEp? && x in Forms((a + b)[i].target);
    } else {
      var i :| 0 <= i < |b| && b[i].TermEp? && x in Forms(b[i].target);
      assert (a + b)[|a| + i].TermEp? && x in Forms((a + b)[|a| + i].target);
    }
  }

  /** One connect, however it ends: entries go on request, and at most one comes. */
  lemma ConnectEntries(s: Sock, addr: Addr, a: Attempt, kept: seq<Entry>, s': Sock)
    requires kept == Without(s.endpoints, CallLog(s, a.poll).gone) && s' == ConnectOne(s, addr, a).0
    ensures || s'.endpoints == kept
            || s'.endpoints == kept + [Entry(addr, a.child, NULL)]
            || s'.endpoints == kept + [Entry(addr, a.child, a.pipe)]
    ensures forall x :: x in CallLog(s, a.poll).gone ==> Requested(CallLog(s, a.poll).handled, [], x)
  {
    if s.ctxTerminated {
      WithoutNone(s.endpoints, {});
    } else {
      DrainHandles(s, a.poll);
    }
  }

  lemma WithoutSwap(es: seq<Entry>, kept: seq<Entry>, a: set<Addr>, b: set<Addr>, addr: Addr)
    requires Without(kept, {addr}) == Without(es, a + {addr})
    ensures Without(Without(kept, b), {addr}) == Without(es, a + b + {addr})
  {
    WithoutTwice(kept, b, {addr});
    WithoutTwice(kept, {addr}, b);
    WithoutTwice(es, a + {addr}, b);
    assert b + {addr} == {addr} + b && a + {addr} + b == a + b + {addr};
  }

  /** Of other addresses the connects leave the map as it was, but for requests. */
  lemma {:induction false} OtherEntries(s: Sock, addr: Addr, calls: seq<Attempt>)
    ensures Without(ConnectAll(s, addr, calls).endpoints, {addr}) == Without(s.endpoints, GoneIn(s, addr, calls) + {addr})
    ensures forall x :: x in GoneIn(s, addr, calls) ==> Requested(HandledIn(s, addr, calls), [], x)
  {
    if calls == [] {
      assert {} + {addr} == {addr};
    } else {
      var pre, a := calls[..|calls| - 1], calls[|calls| - 1];
      OtherEntries(s, addr, pre);
      var mid := ConnectAll(s, addr, pre);
      var kept := Without(mid.endpoints, CallLog(mid, a.poll).gone);
      ConnectEntries(mid, addr, a, kept, ConnectAll(s, addr, calls));
      WithoutSwap(s.endpoints, mid.endpoints, GoneIn(s, addr, pre), CallLog(mid, a.poll).gone, addr);
      forall x | x in GoneIn(s, addr, calls) ensures Requested(HandledIn(s, addr, calls), [], x) {
        RequestedBoth(HandledIn(s, addr, pre), CallLog(mid, a.poll).handled, x);
      }
    }
  }

  /** The addresses the connects and what is read during them have left in the map: those
      of s, and the one connected to. */
  lemma OnlyAdds(es: seq<Entry>, es1: seq<Entry>, addr: Addr, g: set<Addr>, h: set<Addr>)
    requires !Listed(es, addr) && Without(es1, {addr}) == Without(es, g + {addr})
    ensures Without(Without(es1, h), {addr}) == Without(es, g + h)
  {
    WithoutSwap(es, es1, g, h, addr);
    WithoutTwice(es, {addr}, g + h);
    assert {addr} + (g + h) == g + h + {addr};
    forall e | e in es ensures e.addr != addr {
      var i :| 0 <= i < |es| && es[i] == e;
    }
    WithoutNone(es, {addr});
  }

  /** No form of the address that is tried is listed. */
  ghost predicate NoFormListed(es: seq<Entry>, t: Target) {
    forall a :: a in Forms(t) ==> !Listed(es, a)
  }

  /** Ending t in a map that holds the wanted entries and some of t.addr gives the wanted
      entries iff the address itself is listed, or no form of it is. */
  lemma EndItRestores(d: Sock, t: Target, wanted: seq<Entry>)
    requires (t.Known? || t.Tcp?) && Without(d.endpoints, {t.addr}) == wanted
    ensures EndIt(d, t).0.endpoints == wanted <==> Listed(d.endpoints, t.addr) || NoFormListed(d.endpoints, t)
  {
    var key := Key(d.endpoints, t);
    SomeFormListed(d.endpoints, t);
    ListedIff(d.endpoints, t.addr);
    ListedIff(d.endpoints, key);
    if !Listed(d.endpoints, t.addr) {
      NothingToRemove(d.endpoints, t.addr);
      Shrinks(d.endpoints, key);
    }
  }

  /** Round trip of the endpoint map.  After any number of connects to an address not
      listed before -- successful or not, whatever arrives during each -- a term_endpoint
      of it that gets past its reading restores the map, but for addresses that handled
      requests asked to end meanwhile, iff the address itself is still listed after the
      reading or no form of it that is tried is.  (Else, all the connects having failed
      or been undone by a request, resolution leads to another's entry.) */
  lemma ConnectThenTerm(s: Sock, t: Target, calls: seq<Attempt>, s1: Sock, poll: Poll)
    requires (t.Known? || t.Tcp?) && !Listed(s.endpoints, t.addr) && s1 == ConnectAll(s, t.addr, calls)
    requires var rc := TermEndpoint(s1, t, poll).1; rc == Ok || rc == Err(ENOENT)
    ensures var d := TermDrained(s1, t, poll);
            TermEndpoint(s1, t, poll).0.endpoints == Without(s.endpoints, GoneIn(s, t.addr, calls) + TermLog(s1, t, poll).gone)
            <==> Listed(d.endpoints, t.addr) || NoFormListed(d.endpoints, t)
    ensures forall x :: x in GoneIn(s, t.addr, calls) + TermLog(s1, t, poll).gone
              ==> Requested(HandledIn(s, t.addr, calls) + TermLog(s1, t, poll).handled, [], x)
  {
    var g, l, d := GoneIn(s, t.addr, calls), TermLog(s1, t, poll), TermDrained(s1, t, poll);
    OtherEntries(s, t.addr, calls);
    TermDrainedFrame(s1, t, poll);
    OnlyAdds(s.endpoints, s1.endpoints, t.addr, g, l.gone);
    EndItRestores(d, t, Without(s.endpoints, g + l.gone));
    forall x | x in g + l.gone ensures Requested(HandledIn(s, t.addr, calls) + l.handled, [], x) {
      RequestedBoth(HandledIn(s, t.addr, calls), l.handled, x);
    }
  }

  /** When no request takes anything away meanwhile, the map is restored iff the connects
      left an entry, or no other form of the address was listed in the first place. */
  lemma ConnectThenTermAlone(s: Sock, t: Target, calls: seq<Attempt>, s1: Sock, poll: Poll)
    requires (t.Known? || t.Tcp?) && !Listed(s.endpoints, t.addr) && s1 == ConnectAll(s, t.addr, calls)
    requires var rc := TermEndpoint(s1, t, poll).1; rc == Ok || rc == Err(ENOENT)
    requires GoneIn(s, t.addr, calls) == {} && TermLog(s1, t, poll).gone == {}
    ensures TermEndpoint(s1, t, poll).0.endpoints == s.endpoints
       <==> Listed(s1.endpoints, t.addr) || NoFormListed(s.endpoints, t)
  {
    var d := TermDrained(s1, t, poll);
    ConnectThenTerm(s, t, calls, s1, poll);
    TermDrainedFrame(s1, t, poll);
    OtherEntries(s, t.addr, calls);
    WithoutNone(s.endpoints, {});
    WithoutNone(s1.endpoints, {});
    assert {} + {t.addr} == {t.addr} && GoneIn(s, t.addr, calls) + TermLog(s1, t, poll).gone == {};
    forall a | a != t.addr ensures Listed(d.endpoints, a) <==> Listed(s.endpoints, a) {
      SameOthers(d.endpoints, s.endpoints, t.addr, a);
    }
  }

  lemma SameOthers(es: seq<Entry>, es': seq<Entry>, addr: Addr, a: Addr)
    requires Without(es, {addr}) == Without(es', {addr}) && a != addr
    ensures Listed(es, a) <==> Listed(es', a)
  {
    WithoutIn(es, {addr});
    WithoutIn(es', {addr});
  }

  // ---- sessions and pipes

  /** New pointers: nothing in the socket is, or was, either of them. */
  ghost predicate New(d: Sock, a: Attempt) {
    && a.child !in d.own.owned && a.child !in d.own.termSent
    && a.pipe != NULL && a.pipe !in d.pipes
  }

  ghost predicate InUse(s: Sock) {
    SockInv(s) && !s.own.terminating
  }

  /** A connect that succeeds, and during which nobody asks to end its address. */
  ghost predicate Succeeds(s: Sock, addr: Addr, a: Attempt) {
    ConnectOne(s, addr, a).1 == Ok && a.lookup == Usable && addr !in DrainLog(s, a.poll).gone
  }

  /** What the rest of the library owes a connect. */
  ghost predicate Served(s: Sock, a: Attempt) {
    Lawful(s, a.poll, |s.ending|) && New(Drain(s, a.poll).0, a)
  }

  ghost predicate AllSucceed(s: Sock, addr: Addr, calls: seq<Attempt>) {
    forall i {:trigger calls[i]} :: 0 <= i < |calls| ==> Succeeds(ConnectAll(s, addr, calls[..i]), addr, calls[i])
  }

  ghost predicate AllServed(s: Sock, addr: Addr, calls: seq<Attempt>) {
    forall i {:trigger calls[i]} :: 0 <= i < |calls| ==> Served(ConnectAll(s, addr, calls[..i]), calls[i])
  }

  /** Those of the calls that make an entry: the first one only, for the socket types
      that connect to an address once. */
  function Made(s: Sock, calls: seq<Attempt>): seq<Attempt> {
    if s.opts.singleConnect && calls != [] then [calls[0]] else calls
  }

  function EntryOf(s: Sock, addr: Addr, a: Attempt): Entry {
    Entry(addr, a.child, if s.opts.immediate then NULL else a.pipe)
  }

  function Entries(s: Sock, addr: Addr, made: seq<Attempt>): seq<Entry> {
    seq(|made|, i requires 0 <= i < |made| => EntryOf(s, addr, made[i]))
  }

  lemma AddKeeps(d: Sock, addr: Addr, child: Child, pipe: Pipe)
    requires SockInv(d) && !d.own.terminating && NoneComing(d)
    requires child !in d.own.owned && child !in d.own.termSent
    ensures SockInv(AddEndpoint(d, addr, child, pipe))
  {
    var s' := AddEndpoint(d, addr, child, pipe);
    CountedLast(d.mailbox, Own(child));
    forall i | 0 <= i < |s'.mailbox| ensures CmdOk(s', s'.mailbox[i]) {
      if i < |d.mailbox| {
        assert CmdOk(d, d.mailbox[i]);
      }
    }
  }

  lemma AttachKeeps(d: Sock, pipe: Pipe)
    requires SockInv(d) && !d.own.terminating && pipe != NULL && pipe !in d.pipes && Bind(pipe) !in d.mailbox
    ensures SockInv(AttachPipe(d, pipe))
  {
    var s' := AttachPipe(d, pipe);
    forall i | 0 <= i < |s'.mailbox| ensures CmdOk(s', s'.mailbox[i]) {
      assert CmdOk(d, d.mailbox[i]) && d.mailbox[i] in d.mailbox;
    }
  }

  lemma {:induction false} MatchingKept(es: seq<Entry>, addr: Addr, gone: set<Addr>)
    requires addr !in gone
    ensures Matching(Without(es, gone), addr) == Matching(es, addr)
  {
    if es != [] {
      var pre, last := es[..|es| - 1], es[|es| - 1];
      MatchingKept(pre, addr, gone);
      if last.addr in gone {
        assert Without(es, gone) == Without(pre, gone) && Matching(es, addr) == Matching(pre, addr);
      } else {
        assert (Without(pre, gone) + [last])[..|Without(pre, gone)|] == Without(pre, gone);
      }
    }
  }

  /** The matching entries after a connect that succeeds. */
  function WithNew(es: seq<Entry>, addr: Addr, opts: Options, e: Entry): seq<Entry> {
    Matching(es, addr) + if opts.singleConnect && Matching(es, addr) != [] then [] else [e]
  }

  lemma SessionKeeps(d: Sock, addr: Addr, a: Attempt)
    requires InUse(d) && d.mailbox == [] && New(d, a)
    ensures InUse(StartSession(d, addr, Usable, a.child, a.pipe).0)
  {
    if d.opts.immediate {
      AddKeeps(d, addr, a.child, NULL);
    } else {
      AttachKeeps(d, a.pipe);
      AddKeeps(AttachPipe(d, a.pipe), addr, a.child, a.pipe);
    }
  }

  lemma SessionStarted(d: Sock, addr: Addr, a: Attempt)
    ensures var s' := StartSession(d, addr, Usable, a.child, a.pipe).0;
            s'.opts == d.opts && Matching(s'.endpoints, addr) == WithNew(d.endpoints, addr, d.opts, EntryOf(d, addr, a))
  {
    ListedIff(d.endpoints, addr);
  }

  /** A successful connect adds its entry, with a pipe unless immediate -- or nothing, for
      the once-only types, if the address is listed. */
  lemma ConnectMatches(s: Sock, addr: Addr, a: Attempt)
    requires Succeeds(s, addr, a)
    ensures var s' := ConnectOne(s, addr, a).0;
            s'.opts == s.opts && Matching(s'.endpoints, addr) == WithNew(s.endpoints, addr, s.opts, EntryOf(s, addr, a))
  {
    DrainFrame(s, a.poll);
    DrainHandles(s, a.poll);
    MatchingKept(s.endpoints, addr, DrainLog(s, a.poll).gone);
    SessionStarted(Drain(s, a.poll).0, addr, a);
  }

  /** A connect keeps the invariant, whatever arrives. */
  lemma ConnectKeeps(s: Sock, addr: Addr, a: Attempt)
    requires InUse(s) && Served(s, a) && Succeeds(s, addr, a)
    ensures InUse(ConnectOne(s, addr, a).0)
  {
    DrainFrame(s, a.poll);
    DrainKeeps(s, a.poll);
    SessionKeeps(Drain(s, a.poll).0, addr, a);
  }

  /** The entries of the address are those of the calls that made one. */
  ghost predicate Holds(s: Sock, addr: Addr, calls: seq<Attempt>, s': Sock) {
    s'.opts == s.opts && Matching(s'.endpoints, addr) == Entries(s, addr, Made(s, calls))
  }

  /** One of the calls, successful, from one stage to the next. */
  ghost predicate Staged(s: Sock, addr: Addr, a: Attempt, s': Sock) {
    Succeeds(s, addr, a) && s' == ConnectOne(s, addr, a).0
  }

  /** If the entries were right after i calls, they are after the next. */
  ghost predicate HeldOn(s: Sock, addr: Addr, calls: seq<Attempt>, i: nat, before: Sock, after: Sock)
    requires i < |calls|
  {
    Holds(s, addr, calls[..i], before) ==> Holds(s, addr, calls[..i + 1], after)
  }

  lemma {:induction false} StagesMatch(s: Sock, addr: Addr, calls: seq<Attempt>, stages: seq<Sock>, k: nat)
    requires |stages| == |calls| + 1 && k <= |calls| && Holds(s, addr, calls[..0], stages[0])
    requires forall i :: 0 <= i < |calls| ==> HeldOn(s, addr, calls, i, stages[i], stages[i + 1])
    ensures Holds(s, addr, calls[..k], stages[k])
  {
    if k > 0 {
      StagesMatch(s, addr, calls, stages, k - 1);
      assert HeldOn(s, addr, calls, k - 1, stages[k - 1], stages[k]);
    }
  }

  lemma StageHeld(s: Sock, addr: Addr, calls: seq<Attempt>, i: nat, before: Sock, after: Sock)
    requires i < |calls| && Staged(before, addr, calls[i], after)
    ensures HeldOn(s, addr, calls, i, before, after)
  {
    if Holds(s, addr, calls[..i], before) {
      OneMoreHeld(s, addr, calls[..i], calls[i], before, after);
      assert calls[..i + 1] == calls[..i] + [calls[i]];
    }
  }

  lemma OneStage(s: Sock, addr: Addr, calls: seq<Attempt>, i: nat)
    requires i < |calls| && Succeeds(ConnectAll(s, addr, calls[..i]), addr, calls[i])
    ensures Staged(ConnectAll(s, addr, calls[..i]), addr, calls[i], ConnectAll(s, addr, calls[..i + 1]))
  {
    assert calls[..i + 1][..i] == calls[..i];
  }

  function StagesOf(s: Sock, addr: Addr, calls: seq<Attempt>): (stages: seq<Sock>)
    ensures |stages| == |calls| + 1 && stages[0] == s && stages[|calls|] == ConnectAll(s, addr, calls)
  {
    assert calls[..0] == [] && calls[..|calls|] == calls;
    seq(|calls| + 1, i requires 0 <= i <= |calls| => ConnectAll(s, addr, calls[..i]))
  }

  /** k successful connects make one entry, or k. */
  lemma ConnectsMatch(s: Sock, addr: Addr, calls: seq<Attempt>)
    requires AllSucceed(s, addr, calls) && Matching(s.endpoints, addr) == []
    ensures Holds(s, addr, calls, ConnectAll(s, addr, calls))
  {
    var stages := StagesOf(s, addr, calls);
    forall i | 0 <= i < |calls| ensures HeldOn(s, addr, calls, i, stages[i], stages[i + 1]) {
      OneStage(s, addr, calls, i);
      StageHeld(s, addr, calls, i, stages[i], stages[i + 1]);
    }
    assert Holds(s, addr, calls[..0], s);
    StagesMatch(s, addr, calls, stages, |calls|);
    assert calls[..|calls|] == calls;
  }

  lemma OneMoreHeld(s: Sock, addr: Addr, pre: seq<Attempt>, a: Attempt, mid: Sock, s': Sock)
    requires Holds(s, addr, pre, mid) && Staged(mid, addr, a, s')
    ensures Holds(s, addr, pre + [a], s')
  {
    ConnectMatches(mid, addr, a);
  }

  lemma {:induction false} StagesKeep(addr: Addr, calls: seq<Attempt>, stages: seq<Sock>, k: nat)
    requires |stages| == |calls| + 1 && k <= |calls| && InUse(stages[0])
    requires forall i {:trigger calls[i]} :: 0 <= i < |calls| ==> KeptStage(stages[i], addr, calls[i], stages[i + 1])
    ensures InUse(stages[k])
  {
    if k > 0 {
      StagesKeep(addr, calls, stages, k - 1);
      OneMoreKept(stages[k - 1], addr, calls[k - 1], stages[k]);
    }
  }

  ghost predicate KeptStage(s: Sock, addr: Addr, a: Attempt, s': Sock) {
    Staged(s, addr, a, s') && Served(s, a)
  }

  lemma OneMoreKept(s: Sock, addr: Addr, a: Attempt, s': Sock)
    requires InUse(s) && KeptStage(s, addr, a, s')
    ensures InUse(s')
  {
    ConnectKeeps(s, addr, a);
  }

  lemma OneKeptStage(s: Sock, addr: Addr, calls: seq<Attempt>, i: nat)
    requires i < |calls| && AllSucceed(s, addr, calls) && AllServed(s, addr, calls)
    ensures KeptStage(StagesOf(s, addr, calls)[i], addr, calls[i], StagesOf(s, addr, calls)[i + 1])
  {
    OneStage(s, addr, calls, i);
  }

  /** And they keep the socket's invariant, whatever arrives. */
  lemma ConnectsKeep(s: Sock, addr: Addr, calls: seq<Attempt>)
    requires InUse(s) && AllSucceed(s, addr, calls) && AllServed(s, addr, calls)
    ensures InUse(ConnectAll(s, addr, calls))
  {
    var stages := StagesOf(s, addr, calls);
    forall i | 0 <= i < |calls| ensures KeptStage(stages[i], addr, calls[i], stages[i + 1]) {
      OneKeptStage(s, addr, calls, i);
    }
    StagesKeep(addr, calls, stages, |calls|);
  }

  /** A term_endpoint that gets past its reading, during which nobody else ends addr. */
  ghost predicate SmoothEnd(s: Sock, t: Target, addr: Addr, poll: Poll) {
    && (t.Known? || t.Tcp?) && !s.ctxTerminated && Lawful(EnterTerm(s, t), poll, |s.ending| + 1)
    && Answer(TermDrained(s, t, poll), TermReading(s, t, poll).errno) == Ok
    && addr !in TermLog(s, t, poll).gone
  }

  /** The entries of a listed address are still there when the reading is over, and are
      ended exactly if the target leads to them. */
  lemma EndSmooth(s: Sock, t: Target, addr: Addr, poll: Poll, d: Sock)
    requires SockInv(s) && SmoothEnd(s, t, addr, poll) && d == TermDrained(s, t, poll)
    requires Matching(s.endpoints, addr) != []
    ensures Matching(d.endpoints, addr) == Matching(s.endpoints, addr) && Listed(d.endpoints, addr)
    ensures var (s2, rc), key := TermEndpoint(s, t, poll), Key(d.endpoints, t);
            SockInv(s2) && (Listed(d.endpoints, key) ==> rc == Ok && TermExact(d, key, s2))
            && (!Listed(d.endpoints, key) ==> rc == Err(ENOENT) && s2 == d)
  {
    TermEndpointExact(s, t, poll, d);
    TermDrainedFrame(s, t, poll);
    MatchingKept(s.endpoints, addr, TermLog(s, t, poll).gone);
    MatchingIn(d.endpoints, addr);
  }

  /** What becomes of the session and the pipe of entry e. */
  lemma EntryEnded(d: Sock, addr: Addr, s2: Sock, e: Entry)
    requires TermExact(d, addr, s2) && e in Matching(d.endpoints, addr)
    ensures e.child in s2.own.termSent
    ensures e.pipe in d.pipes <==> e.pipe in s2.asked[|d.asked|..]
  {
    MatchingIn(d.endpoints, addr);
  }

  /** Round trip of sessions and pipes.  After k successful connects (ConnectsMatch and
      ConnectsKeep) a term_endpoint that nobody forestalls tells every session made; of the
      pipes made it asks exactly those still attached when its reading is over.  However
      a tcp address resolves: it is listed, so it is the key. */
  lemma ConnectedIsEnded(s: Sock, t: Target, calls: seq<Attempt>, s1: Sock, poll: Poll, d: Sock)
    requires (t.Known? || t.Tcp?) && calls != [] && InUse(s1) && Holds(s, t.addr, calls, s1)
    requires SmoothEnd(s1, t, t.addr, poll) && d == TermDrained(s1, t, poll)
    ensures |Matching(s1.endpoints, t.addr)| == if s.opts.singleConnect then 1 else |calls|
    ensures var (s2, rc) := TermEndpoint(s1, t, poll);
            && rc == Ok && SockInv(s2) && TermExact(d, t.addr, s2)
            && forall e :: e in Entries(s, t.addr, Made(s, calls)) ==>
                 e.child in s2.own.termSent && (e.pipe in d.pipes <==> e.pipe in s2.asked[|d.asked|..])
  {
    EndSmooth(s1, t, t.addr, poll, d);
    var s2 := TermEndpoint(s1, t, poll).0;
    forall e | e in Entries(s, t.addr, Made(s, calls))
      ensures e.child in s2.own.termSent && (e.pipe in d.pipes <==> e.pipe in s2.asked[|d.asked|..])
    {
      EntryEnded(d, t.addr, s2, e);
    }
  }

  // ---- bind

  /** The target leads to addr, if that is listed: it is addr as given; or a peer's form
      of it, the literal not being listed; or a local form, neither being listed. */
  ghost predicate LeadsTo(es: seq<Entry>, t: Target, addr: Addr)
    requires t.Known? || t.Tcp?
  {
    || t.addr == addr
    || (t.Tcp? && !Listed(es, t.addr) && t.remote.Some?
        && (t.remote.value == addr || (!Listed(es, t.remote.value) && t.local == Some(addr))))
  }

  lemma LeadsToKey(es: seq<Entry>, t: Target, addr: Addr)
    requires (t.Known? || t.Tcp?) && Listed(es, addr)
    ensures LeadsTo(es, t, addr) <==> Key(es, t) == addr
  {
  }

  /** The same for a bind: it makes one entry, without a pipe, under the address the
      listener resolved to ... */
  lemma BindMakes(s: Sock, addr: Addr, child: Child, poll: Poll)
    requires InUse(s) && Lawful(s, poll, |s.ending|) && addr !in DrainLog(s, poll).gone
    requires child !in Drain(s, poll).0.own.owned + Drain(s, poll).0.own.termSent
    requires BindListener(s, addr, Usable, child, poll).1 == Ok
    ensures var s' := BindListener(s, addr, Usable, child, poll).0;
            SockInv(s') && Matching(s'.endpoints, addr) == Matching(s.endpoints, addr) + [Entry(addr, child, NULL)]
  {
    var d := Drain(s, poll).0;
    DrainFrame(s, poll);
    DrainHandles(s, poll);
    DrainKeeps(s, poll);
    MatchingKept(s.endpoints, addr, DrainLog(s, poll).gone);
    AddKeeps(d, addr, child, NULL);
  }

  /** ... and a term_endpoint -- of that address, of the one given to bind, or of any
      other -- ends it exactly, telling the listener, iff its target leads there; else the
      entry stays. */
  lemma BoundIsEnded(s: Sock, addr: Addr, child: Child, t: Target, poll: Poll, d: Sock)
    requires SockInv(s) && Matching(s.endpoints, addr) == [Entry(addr, child, NULL)]
    requires SmoothEnd(s, t, addr, poll) && d == TermDrained(s, t, poll)
    ensures var (s', rc) := TermEndpoint(s, t, poll);
            && SockInv(s')
            && (LeadsTo(d.endpoints, t, addr) <==> !Listed(s'.endpoints, addr))
            && (LeadsTo(d.endpoints, t, addr) ==> rc == Ok && TermExact(d, addr, s') && child in s'.own.termSent)
  {
    EndSmooth(s, t, addr, poll, d);
    LeadsToKey(d.endpoints, t, addr);
    var s', key, e := TermEndpoint(s, t, poll).0, Key(d.endpoints, t), Entry(addr, child, NULL);
    MatchingIn(d.endpoints, addr);
    assert e in d.endpoints;
    if key == addr {
      EntryEnded(d, addr, s', e);
    }
  }
}
