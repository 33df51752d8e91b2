/** The endpoint maps of a socket and what term_endpoint does to them once the mailbox
    has been read: which pipes it asks, which sessions it tells, which entries go. */
module Endpoints {
  import opened SocketState

  predicate Listed(es: seq<Entry>, addr: Addr) {
    exists i :: 0 <= i < |es| && es[i].addr == addr
  }

  function Matching(es: seq<Entry>, addr: Addr): seq<Entry> {
    if es == [] then [] else
      Matching(es[..|es| - 1], addr) + (if es[|es| - 1].addr == addr then [es[|es| - 1]] else [])
  }

  /** The entries of all other addresses. */
  function Without(es: seq<Entry>, gone: set<Addr>): seq<Entry> {
    if es == [] then [] else
      Without(es[..|es| - 1], gone) + (if es[|es| - 1].addr in gone then [] else [es[|es| - 1]])
  }

  predicate Carries(range: seq<Entry>, p: Pipe) {
    exists i :: 0 <= i < |range| && range[i].pipe == p
  }

  /** The attached pipes among those of the entries. */
  function Attached(pipes: seq<Pipe>, range: seq<Entry>): seq<Pipe> {
    if pipes == [] then [] else
      Attached(pipes[..|pipes| - 1], range) + (if Carries(range, pipes[|pipes| - 1]) then [pipes[|pipes| - 1]] else [])
  }

  function PipesOf(range: seq<Entry>): seq<Pipe> {
    if range == [] then [] else
      PipesOf(range[..|range| - 1]) + (if range[|range| - 1].pipe != NULL then [range[|range| - 1].pipe] else [])
  }

  /** pipes_to_terminate: it starts with one null per entry. */
  function Wanted(range: seq<Entry>): seq<Pipe> {
    seq(|range|, _ => NULL) + PipesOf(range)
  }

  function Found(pipes: seq<Pipe>, wanted: seq<Pipe>): seq<Pipe> {
    if pipes == [] then [] else
      Found(pipes[..|pipes| - 1], wanted) + (if pipes[|pipes| - 1] in wanted then [pipes[|pipes| - 1]] else [])
  }

  /** The pipes asked: those found, up to as many as were wanted. */
  function Asking(pipes: seq<Pipe>, wanted: seq<Pipe>): seq<Pipe> {
    var found := Found(pipes, wanted);
    if |found| < |wanted| then found else found[..|wanted|]
  }

  function TermChildren(o: OwnPart, range: seq<Entry>): OwnPart {
    if range == [] then o else TermChild(TermChildren(o, range[..|range| - 1]), range[|range| - 1].child)
  }

  /** The key looked up: as given, else resolved as a peer, else resolved as local. */
  function Key(es: seq<Entry>, t: Target): Addr
    requires t.Known? || t.Tcp?
  {
    if t.Known? || Listed(es, t.addr) || t.remote.None? then t.addr
    else if Listed(es, t.remote.value) || t.local.None? then t.remote.value
    else t.local.value
  }

  /** All the keys that may be looked up. */
  function Forms(t: Target): set<Addr> {
    match t
    case Known(addr) => {addr}
    case Tcp(addr, remote, local) =>
      {addr} + (if remote.Some? then {remote.value} else {}) + (if remote.Some? && local.Some? then {local.value} else {})
    case _ => {}
  }

  /** Pipes first, then sessions, then the entries. */
  function TermRange(s: Sock, key: Addr): Sock {
    var range := Matching(s.endpoints, key);
    s.(asked := s.asked + Asking(s.pipes, Wanted(range)), own := TermChildren(s.own, range),
       endpoints := Without(s.endpoints, {key}))
  }

  function InprocPipes(es: seq<InprocEntry>, addr: Addr): seq<Pipe> {
    if es == [] then [] else
      InprocPipes(es[..|es| - 1], addr) + (if es[|es| - 1].addr == addr then [es[|es| - 1].pipe] else [])
  }

  function OtherInprocs(es: seq<InprocEntry>, addr: Addr): seq<InprocEntry> {
    if es == [] then [] else
      OtherInprocs(es[..|es| - 1], addr) + (if es[|es| - 1].addr == addr then [] else [es[|es| - 1]])
  }

  /** term_endpoint after its reading of the mailbox. */
  function EndIt(s: Sock, t: Target): (Sock, Rc)
    requires !t.Null?
  {
    if t.Bad? then (s, Err(EINVAL))
    else if t.Inproc? then
      if t.unregistered then (s, Ok) else
        var pipes := InprocPipes(s.inprocs, t.addr);
        if pipes == [] then (s, Err(ENOENT))
        else (s.(asked := s.asked + pipes, inprocs := OtherInprocs(s.inprocs, t.addr)), Ok)
    else
      var key := Key(s.endpoints, t);
      if Matching(s.endpoints, key) == [] then (s, Err(ENOENT)) else (TermRange(s, key), Ok)
  }

  // ---- facts about the filters

  lemma {:induction false} MatchingIn(es: seq<Entry>, addr: Addr)
    ensures forall e :: e in Matching(es, addr) <==> e in es && e.addr == addr
    ensures forall e :: e in Without(es, {addr}) <==> e in es && e.addr != addr
    ensures |Matching(es, addr)| + |Without(es, {addr})| == |es|
    ensures Matching(es, addr) == [] <==> !Listed(es, addr)
  {
    if es != [] {
      var pre, last := es[..|es| - 1], es[|es| - 1];
      MatchingIn(pre, addr);
      assert es == pre + [last];
      if last.addr == addr {
        assert Listed(es, addr);
      } else if Listed(es, addr) {
        var i :| 0 <= i < |es| && es[i].addr == addr;
        assert pre[i].addr == addr;
      } else {
        assert forall i :: 0 <= i < |pre| ==> pre[i] == es[i];
      }
    }
  }

  lemma {:induction false} WithoutIn(es: seq<Entry>, gone: set<Addr>)
    ensures forall e :: e in Without(es, gone) <==> e in es && e.addr !in gone
  {
    if es != [] {
      var pre, last := es[..|es| - 1], es[|es| - 1];
      WithoutIn(pre, gone);
      assert es == pre + [last];
    }
  }

  lemma {:induction false} WithoutTwice(es: seq<Entry>, a: set<Addr>, b: set<Addr>)
    ensures Without(Without(es, a), b) == Without(es, a + b)
  {
    if es != [] {
      var pre, last := es[..|es| - 1], es[|es| - 1];
      WithoutTwice(pre, a, b);
      if last.addr !in a {
        assert (Without(pre, a) + [last])[..|Without(pre, a)|] == Without(pre, a);
      } else {
        assert Without(es, a) == Without(pre, a);
      }
    }
  }

  lemma {:induction false} WithoutNone(es: seq<Entry>, gone: set<Addr>)
    requires forall e :: e in es ==> e.addr !in gone
    ensures Without(es, gone) == es
  {
    if es != [] {
      var pre := es[..|es| - 1];
      WithoutNone(pre, gone);
      assert es == pre + [es[|es| - 1]];
    }
  }

  lemma {:induction false} NothingMatches(es: seq<Entry>, gone: set<Addr>, addr: Addr)
    requires addr in gone
    ensures Matching(Without(es, gone), addr) == []
  {
    if es != [] {
      var pre, last := es[..|es| - 1], es[|es| - 1];
      NothingMatches(pre, gone, addr);
      if last.addr in gone {
        assert Without(es, gone) == Without(pre, gone);
      } else {
        assert (Without(pre, gone) + [last])[..|Without(pre, gone)|] == Without(pre, gone);
      }
    }
  }

  lemma ListedIff(es: seq<Entry>, addr: Addr)
    ensures Listed(es, addr) <==> Matching(es, addr) != []
  {
    MatchingIn(es, addr);
  }

  lemma Shrinks(es: seq<Entry>, addr: Addr)
    ensures Listed(es, addr) ==> Without(es, {addr}) != es
  {
    MatchingIn(es, addr);
  }

  lemma WithoutUnlisted(es: seq<Entry>, gone: set<Addr>, a: Addr)
    requires !Listed(es, a)
    ensures !Listed(Without(es, gone), a)
  {
    WithoutIn(es, gone);
  }

  lemma {:induction false} NothingToRemove(es: seq<Entry>, addr: Addr)
    requires Matching(es, addr) == []
    ensures Without(es, {addr}) == es
  {
    if es != [] {
      var pre, last := es[..|es| - 1], es[|es| - 1];
      assert last.addr != addr by {
        assert Matching(es, addr) == Matching(pre, addr) + (if last.addr == addr then [last] else []);
      }
      NothingToRemove(pre, addr);
      assert es == pre + [last];
    }
  }

  lemma {:induction false} AttachedIn(pipes: seq<Pipe>, range: seq<Entry>)
    ensures forall p :: p in Attached(pipes, range) <==> p in pipes && Carries(range, p)
    ensures Distinct(pipes) ==> Distinct(Attached(pipes, range))
  {
    if pipes != [] {
      var pre, last := pipes[..|pipes| - 1], pipes[|pipes| - 1];
      AttachedIn(pre, range);
      assert pipes == pre + [last];
      if Distinct(pipes) {
        assert last !in pre;
      }
    }
  }

  // ---- why the early break is dead

  lemma {:induction false} DistinctFits(xs: seq<Pipe>, ys: seq<Pipe>)
    requires Distinct(xs) && forall x :: x in xs ==> x in ys
    ensures |xs| <= |ys|
  {
    if xs != [] {
      var pre, last := xs[..|xs| - 1], xs[|xs| - 1];
      assert last in ys;
      var k :| 0 <= k < |ys| && ys[k] == last;
      var rest := ys[..k] + ys[k + 1..];
      assert ys == ys[..k] + [last] + ys[k + 1..];
      assert forall x :: x in pre ==> x in xs && x != last;
      DistinctFits(pre, rest);
    }
  }

  lemma {:induction false} PipesOfIn(range: seq<Entry>)
    ensures forall p :: p in PipesOf(range) <==> p != NULL && Carries(range, p)
  {
    if range != [] {
      var pre, last := range[..|range| - 1], range[|range| - 1];
      PipesOfIn(pre);
      forall p ensures Carries(range, p) <==> Carries(pre, p) || p == last.pipe {
        if i :| 0 <= i < |pre| && pre[i].pipe == p {
          assert range[i].pipe == p;
        }
        if p == last.pipe {
          assert range[|range| - 1].pipe == p;
        }
        if i :| 0 <= i < |range| && range[i].pipe == p {
          assert i < |pre| ==> pre[i].pipe == p;
        }
      }
    }
  }

  lemma {:induction false} FoundIsAttached(pipes: seq<Pipe>, range: seq<Entry>)
    requires NULL !in pipes
    ensures Found(pipes, Wanted(range)) == Attached(pipes, range)
  {
    PipesOfIn(range);
    if pipes != [] {
      var pre, last := pipes[..|pipes| - 1], pipes[|pipes| - 1];
      FoundIsAttached(pre, range);
      assert last in pipes;
      assert last in Wanted(range) <==> last in PipesOf(range);
    }
  }

  /** The count of found pipes stays below the size of the vector, so the loop is never
      left early and asks every attached pipe of the entries. */
  lemma AskingAll(pipes: seq<Pipe>, range: seq<Entry>)
    requires Distinct(pipes) && range != []
    ensures |Found(pipes, Wanted(range))| < |Wanted(range)|
    ensures Asking(pipes, Wanted(range)) == Attached(pipes, range)
  {
    FoundIsAttached(pipes, range);
    AttachedIn(pipes, range);
    PipesOfIn(range);
    forall p | p in Attached(pipes, range) ensures p in PipesOf(range) {
      assert p in pipes;
    }
    DistinctFits(Attached(pipes, range), PipesOf(range));
  }

  lemma {:induction false} TermChildrenKeeps(s: Sock, range: seq<Entry>)
    requires SockInv(s)
    ensures SockInv(s.(own := TermChildren(s.own, range)))
  {
    if range != [] {
      TermChildrenKeeps(s, range[..|range| - 1]);
    }
  }

  /** Children only move from owned to told, all those of the range, and no others. */
  lemma {:induction false} TermChildrenTell(o: OwnPart, range: seq<Entry>)
    requires o.terminating ==> o.owned == {}
    ensures var o' := TermChildren(o, range);
            && o'.terminating == o.terminating && o'.promised == o.promised
            && o.termSent <= o'.termSent && o'.termSent + o'.owned == o.termSent + o.owned
            && (forall i :: 0 <= i < |range| ==> range[i].child !in o'.owned)
            && (forall c :: c in o'.termSent - o.termSent ==> exists i :: 0 <= i < |range| && range[i].child == c)
            && o'.owned <= o.owned
  {
    if range != [] {
      var pre, last := range[..|range| - 1], range[|range| - 1];
      TermChildrenTell(o, pre);
      assert range == pre + [last];
      var mid, o' := TermChildren(o, pre), TermChildren(o, range);
      forall c | c in o'.termSent - o.termSent ensures exists i :: 0 <= i < |range| && range[i].child == c {
        if c in mid.termSent {
          assert c in mid.termSent - o.termSent;
          var i :| 0 <= i < |pre| && pre[i].child == c;
          assert range[i].child == c;
        } else {
          assert range[|range| - 1].child == c;
        }
      }
      forall i | 0 <= i < |range| ensures range[i].child !in o'.owned {
        if i < |pre| {
          assert pre[i] == range[i];
        }
      }
    }
  }

  lemma UnlistKeeps(s: Sock, addr: Addr)
    requires SockInv(s)
    ensures SockInv(s.(endpoints := Without(s.endpoints, {addr})))
  {
    var s' := s.(endpoints := Without(s.endpoints, {addr}));
    MatchingIn(s.endpoints, addr);
    forall i | 0 <= i < |s.mailbox| ensures CmdOk(s', s'.mailbox[i]) {
      assert CmdOk(s, s.mailbox[i]);
    }
    forall i | 0 <= i < |s'.endpoints|
      ensures var c := s'.endpoints[i].child; c in s.own.owned || c in s.own.termSent || Own(c) in s.mailbox
    {
      assert s'.endpoints[i] in s.endpoints;
    }
  }

  // ---- term_endpoint is exact

  /** The entries of the key go and no others; terminate is called once on each
      attached pipe of those entries and on no other (so never on a stale one); and
      every one of their sessions has been told to terminate, and nobody else. */
  ghost predicate TermExact(d: Sock, key: Addr, s': Sock) {
    && (forall e :: e in s'.endpoints <==> e in d.endpoints && e.addr != key)
    && |s'.endpoints| == |d.endpoints| - |Matching(d.endpoints, key)|
    && s'.pipes == d.pipes && d.asked <= s'.asked
    && Distinct(s'.asked[|d.asked|..])
    && (forall p :: p in s'.asked[|d.asked|..] <==> p in d.pipes && exists e :: e in d.endpoints && e.addr == key && e.pipe == p)
    && (forall e :: e in d.endpoints && e.addr == key ==> e.child in s'.own.termSent)
    && (forall c :: c in s'.own.termSent - d.own.termSent ==> exists e :: e in d.endpoints && e.addr == key && e.child == c)
  }

  /** No session is still on its way to being owned. */
  ghost predicate NoneComing(d: Sock) {
    forall c: Child :: Own(c) !in d.mailbox
  }

  lemma TermRangeKeeps(d: Sock, key: Addr)
    requires SockInv(d) && Matching(d.endpoints, key) != []
    ensures SockInv(TermRange(d, key))
  {
    var range := Matching(d.endpoints, key);
    var s1 := d.(asked := d.asked + Asking(d.pipes, Wanted(range)));
    TermChildrenKeeps(s1, range);
    UnlistKeeps(s1.(own := TermChildren(s1.own, range)), key);
  }

  lemma TermRangeExact(d: Sock, key: Addr)
    requires SockInv(d) && NoneComing(d) && Matching(d.endpoints, key) != []
    ensures SockInv(TermRange(d, key)) && TermExact(d, key, TermRange(d, key))
  {
    var range := Matching(d.endpoints, key);
    var calls := Attached(d.pipes, range);
    var s1 := d.(asked := d.asked + calls);
    var s2 := s1.(own := TermChildren(s1.own, range));
    MatchingIn(d.endpoints, key);
    AttachedIn(d.pipes, range);
    CarriesIn(d.endpoints, key);
    AskingAll(d.pipes, range);
    TermRangeKeeps(d, key);
    TermChildrenTell(s1.own, range);
    assert s2.asked[|d.asked|..] == calls;
    AllTold(d, s2, range);
    forall c | c in s2.own.termSent - d.own.termSent
      ensures exists e :: e in d.endpoints && e.addr == key && e.child == c
    {
      var i :| 0 <= i < |range| && range[i].child == c;
      assert range[i] in range;
    }
  }

  /** The key is listed iff one of the forms that are tried is; the address as given
      goes before its resolutions, and a peer's before a local one. The local form is
      tried only when the remote one resolves. */
  lemma KeyFinds(es: seq<Entry>, t: Target)
    requires t.Known? || t.Tcp?
    ensures var key := Key(es, t);
            && (Listed(es, key) <==>
                  || Listed(es, t.addr)
                  || (t.Tcp? && t.remote.Some?
                      && (Listed(es, t.remote.value) || (t.local.Some? && Listed(es, t.local.value)))))
            && (Listed(es, t.addr) ==> key == t.addr)
            && (t.Tcp? && t.remote.Some? && !Listed(es, t.addr) && Listed(es, t.remote.value) ==> key == t.remote.value)
  {
  }

  lemma CarriesIn(es: seq<Entry>, key: Addr)
    ensures forall p :: Carries(Matching(es, key), p) <==> exists e :: e in es && e.addr == key && e.pipe == p
  {
    var range := Matching(es, key);
    MatchingIn(es, key);
    forall p ensures Carries(range, p) <==> exists e :: e in es && e.addr == key && e.pipe == p {
      if Carries(range, p) {
        var i :| 0 <= i < |range| && range[i].pipe == p;
        assert range[i] in range;
      }
      if e :| e in es && e.addr == key && e.pipe == p {
        assert e in range;
      }
    }
  }

  /** No listed session can be missed: with the mailbox empty, each is owned (and told
      now) or was told before. */
  lemma AllTold(d: Sock, s2: Sock, range: seq<Entry>)
    requires SockInv(d) && NoneComing(d)
    requires forall i :: 0 <= i < |range| ==> range[i] in d.endpoints && range[i].child !in s2.own.owned
    requires s2.own.termSent + s2.own.owned == d.own.termSent + d.own.owned
    ensures forall e :: e in range ==> e.child in s2.own.termSent
  {
    forall e | e in range ensures e.child in s2.own.termSent {
      var k :| 0 <= k < |d.endpoints| && d.endpoints[k] == e;
      assert e.child in d.own.owned || e.child in d.own.termSent;
    }
  }

  /** Disconnecting an inproc address asks each of the pipes listed for it once, all of
      them attached, no other, and unlists exactly those. */
  ghost predicate InprocExact(d: Sock, addr: Addr, s': Sock, rc: Rc) {
    && (rc == Ok <==> exists e :: e in d.inprocs && e.addr == addr)
    && d.asked <= s'.asked && Distinct(s'.asked[|d.asked|..])
    && (forall p :: p in s'.asked[|d.asked|..] <==> exists e :: e in d.inprocs && e.addr == addr && e.pipe == p)
    && (forall p :: p in s'.asked[|d.asked|..] ==> p in d.pipes)
    && (forall e :: e in s'.inprocs <==> e in d.inprocs && e.addr != addr)
    && s'.own == d.own && s'.pipes == d.pipes && s'.endpoints == d.endpoints
  }

  lemma InprocRangeExact(d: Sock, addr: Addr, s': Sock)
    requires SockInv(d) && InprocPipes(d.inprocs, addr) != []
    requires s' == d.(asked := d.asked + InprocPipes(d.inprocs, addr), inprocs := OtherInprocs(d.inprocs, addr))
    ensures InprocExact(d, addr, s', Ok)
  {
    InprocsIn(d.inprocs, addr);
    InprocsOnce(d.inprocs, addr);
    var pipes := InprocPipes(d.inprocs, addr);
    assert s'.asked[|d.asked|..] == pipes;
    assert pipes[0] in pipes;
    forall p | p in pipes ensures p in d.pipes {
      var e :| e in d.inprocs && e.addr == addr && e.pipe == p;
    }
  }

  lemma InprocNotListed(d: Sock, addr: Addr)
    requires InprocPipes(d.inprocs, addr) == []
    ensures InprocExact(d, addr, d, Err(ENOENT))
  {
    InprocsIn(d.inprocs, addr);
    forall e | e in d.inprocs ensures e.addr != addr {
      assert e.pipe !in InprocPipes(d.inprocs, addr);
    }
  }

  lemma InprocRangeKeeps(d: Sock, addr: Addr)
    requires SockInv(d)
    ensures SockInv(d.(asked := d.asked + InprocPipes(d.inprocs, addr), inprocs := OtherInprocs(d.inprocs, addr)))
  {
    var s' := d.(asked := d.asked + InprocPipes(d.inprocs, addr), inprocs := OtherInprocs(d.inprocs, addr));
    InprocsIn(d.inprocs, addr);
    InprocsOnce(d.inprocs, addr);
    forall i | 0 <= i < |s'.inprocs| ensures s'.inprocs[i].pipe in s'.pipes {
      assert s'.inprocs[i] in d.inprocs;
    }
    forall i | 0 <= i < |s'.mailbox| ensures CmdOk(s', s'.mailbox[i]) {
      assert CmdOk(d, d.mailbox[i]);
    }
  }

  /** Whatever term_endpoint is given, it keeps the socket's invariant. */
  lemma EndItKeeps(d: Sock, t: Target)
    requires SockInv(d) && !t.Null?
    ensures SockInv(EndIt(d, t).0)
  {
    if t.Inproc? {
      InprocRangeKeeps(d, t.addr);
    } else if !t.Bad? && Matching(d.endpoints, Key(d.endpoints, t)) != [] {
      TermRangeKeeps(d, Key(d.endpoints, t));
    }
  }

  /** Of a reading that found everything, the whole of term_endpoint: an inproc address
      bound here is only unregistered; one connected to, and any other address, is
      ended exactly if it is listed; else nothing happens. */
  ghost predicate EndedExactly(d: Sock, t: Target, s': Sock, rc: Rc)
    requires !t.Null?
  {
    if t.Bad? then s' == d && rc == Err(EINVAL)
    else if t.Inproc? && t.unregistered then s' == d && rc == Ok
    else if t.Inproc? then InprocExact(d, t.addr, s', rc) && (rc == Ok || (rc == Err(ENOENT) && s' == d))
    else
      var key := Key(d.endpoints, t);
      && (rc == Ok <==> Listed(d.endpoints, key))
      && if rc == Ok then TermExact(d, key, s') else rc == Err(ENOENT) && s' == d
  }

  lemma EndItExact(d: Sock, t: Target)
    requires SockInv(d) && NoneComing(d) && !t.Null?
    ensures EndedExactly(d, t, EndIt(d, t).0, EndIt(d, t).1)
  {
    if t.Inproc? && !t.unregistered {
      if InprocPipes(d.inprocs, t.addr) == [] {
        InprocNotListed(d, t.addr);
      } else {
        InprocRangeExact(d, t.addr, EndIt(d, t).0);
      }
    } else if t.Known? || t.Tcp? {
      var key := Key(d.endpoints, t);
      MatchingIn(d.endpoints, key);
      if Matching(d.endpoints, key) != [] {
        TermRangeExact(d, key);
      }
    }
  }

  lemma {:induction false} InprocsIn(es: seq<InprocEntry>, addr: Addr)
    ensures forall p :: p in InprocPipes(es, addr) <==> exists e :: e in es && e.addr == addr && e.pipe == p
    ensures forall e :: e in OtherInprocs(es, addr) <==> e in es && e.addr != addr
  {
    if es != [] {
      var pre, last := es[..|es| - 1], es[|es| - 1];
      InprocsIn(pre, addr);
      assert es == pre + [last];
      forall p ensures p in InprocPipes(es, addr) <==> exists e :: e in es && e.addr == addr && e.pipe == p {
        if p in InprocPipes(pre, addr) {
          var e :| e in pre && e.addr == addr && e.pipe == p;
          assert e in es;
        } else if last.addr == addr && last.pipe == p {
          assert last in es;
        }
      }
    }
  }

  lemma {:induction false} InprocsOnce(es: seq<InprocEntry>, addr: Addr)
    requires ListedOnce(es)
    ensures ListedOnce(OtherInprocs(es, addr))
    ensures forall i, j :: 0 <= i < j < |InprocPipes(es, addr)| ==> InprocPipes(es, addr)[i] != InprocPipes(es, addr)[j]
  {
    if es != [] {
      var pre, last := es[..|es| - 1], es[|es| - 1];
      InprocsOnce(pre, addr);
      InprocsIn(pre, addr);
      forall e | e in pre ensures e.pipe != last.pipe {
        var i :| 0 <= i < |pre| && pre[i] == e;
        assert es[i].pipe != es[|es| - 1].pipe;
      }
      assert last.pipe !in InprocPipes(pre, addr);
      forall i | 0 <= i < |OtherInprocs(pre, addr)| ensures OtherInprocs(pre, addr)[i].pipe != last.pipe {
        assert OtherInprocs(pre, addr)[i] in pre;
      }
    }
  }
}
