/** The data socket's connections and the peers map. */
module Mirror {
  import opened Peer
  import opened Discovery
  import opened Bootstrap
  import opened Takeover

  ghost predicate Maps(peers: map<Uuid, Endpoint>, e: Endpoint) {
    exists k :: k in peers && peers[k] == e
  }

  /** dataSub is connected to exactly the endpoints in the map. */
  ghost predicate Mirrors(l: Local) {
    forall e :: e in l.connected <==> Maps(l.peers, e)
  }

  ghost predicate Shared(l: Local, u: Uuid) {
    u in l.peers && exists k :: k in l.peers && k != u && l.peers[k] == l.peers[u]
  }

  /** What a message must carry: a new announcement an endpoint that can be connected to
      (or is connected already); a disconnect message the endpoint to disconnect -- the
      one stored in the map is not looked at. */
  ghost predicate FitsMap(l: Local, m: ConnectMsg) {
    && (m.command == CONNECT && m.uuid !in l.peers ==> Connectable(m.endpoint) || m.endpoint in l.connected)
    && (m.command == DISCONNECT && m.uuid in l.peers ==>
          if Shared(l, m.uuid) then m.endpoint !in l.connected else m.endpoint == l.peers[m.uuid])
  }

  /** Handling a message keeps connections and map in step iff the message fits the map. */
  lemma HandleMirrors(c: Config, l: Local, m: ConnectMsg)
    requires Mirrors(l)
    ensures Mirrors(Handle(c, l, m).0) <==> FitsMap(l, m)
  {
    if m.command == CONNECT && m.uuid !in l.peers {
      ConnectMirrors(c, l, m);
    } else if m.command == DISCONNECT && m.uuid in l.peers {
      DisconnectMirrors(c, l, m);
    }
  }

  lemma ConnectMirrors(c: Config, l: Local, m: ConnectMsg)
    requires Mirrors(l) && m.command == CONNECT && m.uuid !in l.peers
    ensures Mirrors(Handle(c, l, m).0) <==> FitsMap(l, m)
  {
    var l' := Handle(c, l, m).0;
    assert m.uuid in l'.peers && l'.peers[m.uuid] == m.endpoint;
    assert Maps(l'.peers, m.endpoint);
    forall e | e != m.endpoint ensures Maps(l'.peers, e) <==> Maps(l.peers, e) {
      if k :| k in l.peers && l.peers[k] == e {
        assert k in l'.peers && l'.peers[k] == e;
      }
    }
  }

  lemma DisconnectMirrors(c: Config, l: Local, m: ConnectMsg)
    requires Mirrors(l) && m.command == DISCONNECT && m.uuid in l.peers
    ensures Mirrors(Handle(c, l, m).0) <==> FitsMap(l, m)
  {
    var l', mine := Handle(c, l, m).0, l.peers[m.uuid];
    assert l'.peers == l.peers - {m.uuid} && l'.connected == l.connected - {m.endpoint};
    // every other endpoint keeps a holder
    forall e | e != mine ensures Maps(l'.peers, e) <==> e in l.connected {
      if k :| k in l.peers && l.peers[k] == e {
        assert k in l'.peers && l'.peers[k] == e;
      }
    }
    assert Maps(l'.peers, mine) <==> Shared(l, m.uuid) by {
      if k :| k in l.peers && k != m.uuid && l.peers[k] == mine {
        assert k in l'.peers && l'.peers[k] == mine;
      }
    }
    assert Maps(l.peers, mine);
    if Mirrors(l') {
      assert m.endpoint !in l'.connected;
      assert mine in l'.connected <==> Shared(l, m.uuid);
    }
  }

  // ---- runs that can happen on one machine

  /** Action k is the first of its process. */
  ghost predicate FirstOf(acts: seq<Action>, k: nat)
    requires k < |acts|
  {
    forall j :: 0 <= j < k ==> acts[j].u != acts[k].u
  }

  /** A process starts before its end time, which it reckons from then; and its bind only
      succeeds while no other running process has the endpoint. */
  ghost predicate MayStart(cs: seq<Config>, acts: seq<Action>, k: nat, net: Net)
    requires k < |acts| && acts[k].u < |cs|
  {
    var c := cs[acts[k].u];
    && (c.endTime > 0 ==> net.clock < c.endTime)
    && (Connectable(c.endpoint) ==>
          forall j :: 0 <= j < k && acts[j].u < |cs| && acts[j].u < |net.nodes| && cs[acts[j].u].endpoint == c.endpoint
            ==> Gone(net, acts[j].u))
  }

  ghost predicate Orderly(cs: seq<Config>, acts: seq<Action>) {
    && (forall k :: 0 <= k < |acts| ==> acts[k].u < |cs|)
    && (forall k {:trigger FirstOf(acts, k)} :: 0 <= k < |acts| && FirstOf(acts, k) ==> MayStart(cs, acts, k, Run(Start(cs), acts[..k])))
  }

  ghost predicate Acted(acts: seq<Action>, u: nat) {
    exists k :: 0 <= k < |acts| && acts[k].u == u
  }

  lemma OrderlyPrefix(cs: seq<Config>, acts: seq<Action>, n: nat)
    requires Orderly(cs, acts) && n <= |acts|
    ensures Orderly(cs, acts[..n])
  {
    forall k | 0 <= k < n && FirstOf(acts[..n], k) ensures MayStart(cs, acts[..n], k, Run(Start(cs), acts[..n][..k])) {
      assert acts[..n][..k] == acts[..k];
      assert FirstOf(acts, k) by {
        assert forall j :: 0 <= j < k ==> acts[j] == acts[..n][j];
      }
    }
  }

  lemma {:induction false} LiveActed(cs: seq<Config>, acts: seq<Action>, u: nat)
    requires u < |cs|
    ensures |Run(Start(cs), acts).nodes| == |cs| && (Run(Start(cs), acts).nodes[u].live ==> Acted(acts, u))
  {
    if acts != [] {
      var pre, a := acts[..|acts| - 1], acts[|acts| - 1];
      LiveActed(cs, pre, u);
      if Acted(pre, u) {
        var k :| 0 <= k < |pre| && pre[k].u == u;
        assert acts[k].u == u;
      } else if a.u == u {
        assert acts[|acts| - 1].u == u;
      }
    }
  }

  lemma {:induction false} FirstAction(acts: seq<Action>, u: nat) returns (k: nat)
    requires Acted(acts, u)
    ensures k < |acts| && acts[k].u == u && FirstOf(acts, k)
    decreases |acts|
  {
    var pre := acts[..|acts| - 1];
    if Acted(pre, u) {
      k := FirstAction(pre, u);
      assert acts[k] == pre[k] && forall j :: 0 <= j < k ==> acts[j] == pre[j];
    } else {
      k := |acts| - 1;
      forall i | 0 <= i < k ensures acts[i].u != u {
        assert acts[i] == pre[i];
      }
    }
  }

  /** Process i leaves, and j can have its port, and time, after it. */
  ghost predicate Succeeds(cs: seq<Config>, i: nat, j: nat)
    requires i < |cs| && j < |cs|
  {
    && i != j && cs[i].endpoint == cs[j].endpoint && Connectable(cs[i].endpoint)
    && cs[i].endTime > 0 && (cs[j].endTime > 0 ==> cs[j].endTime > cs[i].endTime + 1)
  }

  ghost predicate Succession(cs: seq<Config>) {
    exists i: nat, j: nat :: i < |cs| && j < |cs| && Succeeds(cs, i, j)
  }

  /** Two processes can only both take part on one endpoint one after the other. */
  lemma OneAfterOther(cs: seq<Config>, acts: seq<Action>, i: nat, j: nat)
    requires Configured(cs) && Orderly(cs, acts) && i < |cs| && j < |cs| && i != j
    requires cs[i].endpoint == cs[j].endpoint && Connectable(cs[i].endpoint) && Acted(acts, i) && Acted(acts, j)
    ensures Succession(cs)
  {
    var ki := FirstAction(acts, i);
    var kj := FirstAction(acts, j);
    if ki < kj {
      LeftBefore(cs, acts, ki, kj);
    } else {
      LeftBefore(cs, acts, kj, ki);
    }
  }

  lemma LeftBefore(cs: seq<Config>, acts: seq<Action>, k: nat, l: nat)
    requires Configured(cs) && Orderly(cs, acts)
    requires k < l < |acts| && FirstOf(acts, l)
    requires cs[acts[k].u].endpoint == cs[acts[l].u].endpoint && Connectable(cs[acts[k].u].endpoint)
    ensures Succeeds(cs, acts[k].u, acts[l].u)
  {
    var net := Run(Start(cs), acts[..l]);
    Reachable(cs, acts[..l]);
    assert MayStart(cs, acts, l, net);
    assert NodeInv(net, acts[k].u);
  }

  // ---- the mirror holds

  ghost predicate AllBound(cs: seq<Config>) {
    forall i :: 0 <= i < |cs| ==> Connectable(cs[i].endpoint)
  }

  ghost predicate MirroredAt(net: Net, u: nat) {
    u < |net.nodes| ==> Mirrors(net.nodes[u].local)
  }

  /** The messages that can arrive fit the maps there can be. */
  lemma ArrivalsFit(cs: seq<Config>, acts: seq<Action>, u: nat, net: Net)
    requires Configured(cs) && AllBound(cs) && !Succession(cs) && Orderly(cs, acts) && net == Run(Start(cs), acts)
    requires u < |net.nodes| && net.nodes[u].inbox != []
    ensures FitsMap(net.nodes[u].local.(polling := false), net.nodes[u].inbox[0])
  {
    Reachable(cs, acts);
    assert NodeInv(net, u);
    var m, l := net.nodes[u].inbox[0], net.nodes[u].local.(polling := false);
    assert m == Welcome(net) || Genuine(net, m);
    forall k | k in l.peers ensures k < |cs| && l.peers[k] == cs[k].endpoint && Acted(acts, k) {
      assert Genuine(net, ConnectMsg(CONNECT, k, l.peers[k]));
      assert NodeInv(net, k);
      LiveActed(cs, acts, k);
    }
    if m != Welcome(net) {
      assert NodeInv(net, m.uuid);
    }
    if Shared(l, m.uuid) {
      var k :| k in l.peers && k != m.uuid && l.peers[k] == l.peers[m.uuid];
      OneAfterOther(cs, acts, k, m.uuid);
    }
  }

  lemma StepMirrors(net: Net, a: Action, u: nat)
    requires u < |net.nodes| && Mirrors(net.nodes[u].local)
    requires net.nodes[u].inbox != [] ==> FitsMap(net.nodes[u].local.(polling := false), net.nodes[u].inbox[0])
    ensures |Step(net, a).nodes| == |net.nodes| && Mirrors(Step(net, a).nodes[u].local)
  {
    if Enabled(net, a) && a.LoopBottom? && a.u == u {
      if a.receive {
        HandleMirrors(net.nodes[u].cfg, net.nodes[u].local.(polling := false), net.nodes[u].inbox[0]);
      }
    } else {
      SameConnections(net, a, u);
    }
  }

  /** What u would take next fits its map. */
  ghost predicate Fits(net: Net, u: nat) {
    u < |net.nodes| && net.nodes[u].inbox != [] ==> FitsMap(net.nodes[u].local.(polling := false), net.nodes[u].inbox[0])
  }

  lemma NextMirrors(net: Net, a: Action, u: nat)
    requires u < |net.nodes| && MirroredAt(net, u) && Fits(net, u)
    ensures |Step(net, a).nodes| == |net.nodes| && MirroredAt(Step(net, a), u)
  {
    StepMirrors(net, a, u);
  }

  lemma {:induction false} MirrorsAlong(net: Net, acts: seq<Action>, u: nat)
    requires u < |net.nodes| && MirroredAt(net, u) && forall k :: 0 <= k < |acts| ==> Fits(Run(net, acts[..k]), u)
    ensures |Run(net, acts).nodes| == |net.nodes| && MirroredAt(Run(net, acts), u)
  {
    if acts != [] {
      var pre := acts[..|acts| - 1];
      assert forall k :: 0 <= k < |pre| ==> pre[..k] == acts[..k];
      MirrorsAlong(net, pre, u);
      NextMirrors(Run(net, pre), acts[|acts| - 1], u);
    }
  }

  lemma ConnectionsMirrorMap(cs: seq<Config>, acts: seq<Action>, u: nat)
    requires Configured(cs) && AllBound(cs) && !Succession(cs) && Orderly(cs, acts) && u < |cs|
    ensures |Run(Start(cs), acts).nodes| == |cs| && MirroredAt(Run(Start(cs), acts), u)
  {
    forall k | 0 <= k < |acts| ensures Fits(Run(Start(cs), acts[..k]), u) {
      OrderlyPrefix(cs, acts, k);
      var net := Run(Start(cs), acts[..k]);
      if u < |net.nodes| && net.nodes[u].inbox != [] {
        ArrivalsFit(cs, acts[..k], u, net);
      }
    }
    MirrorsAlong(Start(cs), acts, u);
  }

  lemma SameConnections(net: Net, a: Action, u: nat)
    requires u < |net.nodes| && !(Enabled(net, a) && a.LoopBottom? && a.u == u)
    ensures |Step(net, a).nodes| == |net.nodes|
    ensures var l, l' := net.nodes[u].local, Step(net, a).nodes[u].local;
            l'.peers == l.peers && l'.connected == l.connected
  {
  }

  // ---- a process that could not bind

  lemma {:induction false} NeverUnbound(cs: seq<Config>, acts: seq<Action>, u: nat)
    requires u < |cs|
    ensures |Run(Start(cs), acts).nodes| == |cs| && UNBOUND !in Run(Start(cs), acts).nodes[u].local.connected
  {
    if acts != [] {
      NeverUnbound(cs, acts[..|acts| - 1], u);
    }
  }

  lemma FirstIsZero(acts: seq<Action>, u: nat, k: nat)
    requires OnlyBy(acts, u) && k < |acts| && FirstOf(acts, k)
    ensures k == 0
  {
    var first := acts[0].u;
    assert first == acts[k].u;
  }

  lemma AloneIsOrderly(cs: seq<Config>, acts: seq<Action>, u: nat)
    requires u < |cs| && OnlyBy(acts, u)
    ensures Orderly(cs, acts)
  {
    forall k | 0 <= k < |acts| && FirstOf(acts, k) ensures MayStart(cs, acts, k, Run(Start(cs), acts[..k])) {
      FirstIsZero(acts, u, k);
      assert acts[..0] == [];
    }
  }

  /** It connects to itself, as far as its map goes, and to nothing. */
  lemma UnboundBreaks(cs: seq<Config>, u: nat) returns (acts: seq<Action>)
    requires Configured(cs) && u < |cs| && !Connectable(cs[u].endpoint)
    ensures Orderly(cs, acts) && !MirroredAt(Run(Start(cs), acts), u)
  {
    var net;
    assert Run(Start(cs), []) == Start(cs);
    SaneReachable(cs, []);
    acts, net := ConnectSelf(Start(cs), u);
    AloneIsOrderly(cs, acts, u);
    Reachable(cs, acts);
    NeverUnbound(cs, acts, u);
    assert Remaining(Start(cs), u);
    assert NodeInv(net, u) && Genuine(net, ConnectMsg(CONNECT, u, net.nodes[u].local.peers[u]));
    assert net.nodes[u].local.peers[u] == UNBOUND;
  }

  // ---- a process that takes over a port

  lemma HandoverIsOrderly(cs: seq<Config>, u: nat, v: nat, mine: seq<Action>, theirs: seq<Action>)
    requires u < |cs| && v < |cs| && u != v && OnlyBy(mine, u) && mine != [] && theirs != [] && theirs[0].u == v
    requires forall i :: 0 <= i < |theirs| ==> theirs[i].u == u || theirs[i].u == v
    requires var mid := Run(Start(cs), mine); |mid.nodes| == |cs| && Gone(mid, u) && (cs[v].endTime > 0 ==> mid.clock < cs[v].endTime)
    ensures Orderly(cs, mine + theirs)
  {
    var acts := mine + theirs;
    forall k | 0 <= k < |acts| && FirstOf(acts, k) ensures MayStart(cs, acts, k, Run(Start(cs), acts[..k])) {
      var a, b := acts[0].u, acts[|mine|].u;
      assert a == u && b == v;
      if k == 0 {
        assert acts[..0] == [];
      } else {
        assert k == |mine| && acts[..k] == mine;
      }
    }
  }

  /** The successor of a process, on its port: its run breaks the mirror. */
  lemma SuccessorBreaks(cs: seq<Config>, u: nat, v: nat) returns (acts: seq<Action>)
    requires Configured(cs) && u < |cs| && v < |cs| && Succeeds(cs, u, v)
    ensures Orderly(cs, acts) && !MirroredAt(Run(Start(cs), acts), v)
  {
    var mine, theirs := Lifetime(cs[u]), Succeeding(u, v, cs[u].endTime + 1);
    TakesOver(cs, u, v);
    Life(cs, u);
    HandoverIsOrderly(cs, u, v, mine, theirs);
    acts := mine + theirs;
    var l := Run(Start(cs), acts).nodes[v].local;
    assert v in l.peers && l.peers[v] == cs[v].endpoint && cs[v].endpoint !in l.connected;
  }

  ghost predicate AlwaysMirrors(cs: seq<Config>) {
    forall acts, u: nat :: Orderly(cs, acts) ==> MirroredAt(Run(Start(cs), acts), u)
  }

  /** In every reachable state every process is connected to exactly the endpoints in its
      map, iff every process could bind and none takes over the port of one that left. */
  lemma MirrorsIff(cs: seq<Config>)
    requires Configured(cs)
    ensures AlwaysMirrors(cs) <==> AllBound(cs) && !Succession(cs)
  {
    if !AllBound(cs) {
      var u :| 0 <= u < |cs| && !Connectable(cs[u].endpoint);
      var acts := UnboundBreaks(cs, u);
    } else if Succession(cs) {
      var i: nat, j: nat :| i < |cs| && j < |cs| && Succeeds(cs, i, j);
      var acts := SuccessorBreaks(cs, i, j);
    } else {
      forall acts, u: nat | Orderly(cs, acts) ensures MirroredAt(Run(Start(cs), acts), u) {
        Reachable(cs, acts);
        if u < |cs| {
          ConnectionsMirrorMap(cs, acts, u);
        }
      }
    }
  }
}
