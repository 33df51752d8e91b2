/** The replies die out: among settled members every relay and every receive lowers a
    rank, and each reply uses up a missing map entry -- whoever else has not joined yet,
    or has left. */
module Gossip {
  import opened Wrappers
  import opened Peer
  import opened Discovery
  import opened Convergence
  import opened Sums

  lemma {:induction false} BelowCount(s: set<nat>, n: nat)
    requires forall k :: k in s ==> k < n
    ensures |s| <= n
  {
    if n == 0 {
      assert s == {};
    } else {
      BelowCount(s - {n - 1}, n - 1);
    }
  }

  // ---- settled networks

  /** Every member is connected to itself, and only announcements circulate. */
  ghost predicate Settled(net: Net) {
    forall u :: 0 <= u < |net.nodes| ==> SettledNode(net, u)
  }

  ghost predicate Announcement(net: Net, m: ConnectMsg) {
    m.command == WELCOME || (m.command == CONNECT && m.uuid < |net.nodes|)
  }

  ghost predicate SettledNode(net: Net, u: nat)
    requires u < |net.nodes|
  {
    net.nodes[u].cfg.uuid == u && if Present(net.nodes[u]) then SettledMember(net, u) else Outside(net.nodes[u])
  }

  ghost predicate SettledMember(net: Net, u: nat)
    requires u < |net.nodes|
  {
    var nd := net.nodes[u];
    && u in nd.local.peers
    && (forall k :: k in nd.local.peers ==> k < |net.nodes|)
    && (forall i :: 0 <= i < |nd.inbox| ==> Announcement(net, nd.inbox[i]))
    && (forall i :: 0 <= i < |nd.outbox| ==> Announcement(net, nd.outbox[i]))
  }

  /** Not in yet, or gone with everything it said delivered. */
  ghost predicate Outside(nd: Node) {
    nd.outbox == [] && (nd.local.running ==> !nd.live && nd.inbox == [] && nd.local.proxies == {})
  }

  /** Nobody joins, and no process reaches its end time, in this action. */
  ghost predicate Calm(net: Net, a: Action) {
    !a.Join? && (a.LoopTop? && a.u < |net.nodes| ==> !Expired(net.nodes[a.u].cfg, a.now))
  }

  function MissingAt(nd: Node, n: nat): int {
    if Present(nd) then n - |nd.local.peers| else 0
  }

  function MissingOf(net: Net): seq<int> {
    seq(|net.nodes|, i requires 0 <= i < |net.nodes| => MissingAt(net.nodes[i], |net.nodes|))
  }

  function Weight(nd: Node, n: nat): int {
    if Present(nd) then (n + 1) * (n - |nd.local.peers| + |nd.outbox|) + |nd.inbox| else 0
  }

  function Weights(net: Net): seq<int> {
    seq(|net.nodes|, i requires 0 <= i < |net.nodes| => Weight(net.nodes[i], |net.nodes|))
  }

  function Missing(net: Net): int { Sum(MissingOf(net)) }

  function Rank(net: Net): int { Sum(Weights(net)) }

  /** A step that moves a message. */
  ghost predicate Moves(net: Net, a: Action) {
    Enabled(net, a) && (a.Relay? || (a.LoopBottom? && a.receive))
  }

  /** How many messages a member sends in a step. */
  function Sends(net: Net, a: Action): nat {
    if !Enabled(net, a) || !Present(net.nodes[a.u]) then 0
    else if a.LoopTop? then
      |Top(net.nodes[a.u].cfg, net.nodes[a.u].local, a.now).1|
    else if a.LoopBottom? then
      var nd := net.nodes[a.u];
      |Bottom(nd.cfg, nd.local, if a.receive then Some(nd.inbox[0]) else None).1|
    else 0
  }

  lemma Lower(n: nat, k: int)
    ensures (n + 1) * (k - 1) == (n + 1) * k - (n + 1)
  {
  }

  lemma Monotone(n: nat, j: int, k: int)
    requires j <= k
    ensures (n + 1) * j <= (n + 1) * k
  {
  }

  lemma RelayNode(net: Net, u: nat, v: nat)
    requires Settled(net) && Enabled(net, Relay(u)) && v < |net.nodes|
    ensures var n, nd, nd' := |net.nodes|, net.nodes[v], Step(net, Relay(u)).nodes[v];
            && SettledNode(Step(net, Relay(u)), v)
            && nd'.local == nd.local && Present(nd') == Present(nd)
            && Weight(nd', n) <= Weight(nd, n) + 1 - (if u == v then n + 1 else 0)
  {
    var n, nd := |net.nodes|, net.nodes[v];
    assert SettledNode(net, u) && SettledNode(net, v);
    assert Announcement(net, net.nodes[u].outbox[0]);
    if u == v {
      Lower(n, n - |nd.local.peers| + |nd.outbox|);
    }
  }

  lemma OneDown(ws: seq<int>, ws': seq<int>, u: nat)
    requires u < |ws| == |ws'|
    requires forall v :: 0 <= v < |ws| ==> ws'[v] <= ws[v] + 1 - (if u == v then |ws| + 1 else 0)
    ensures Sum(ws') <= Sum(ws) - 1
  {
    var mid := ws[u := ws[u] - (|ws| + 1)];
    SumUpdate(ws, u, ws[u] - (|ws| + 1));
    forall v | 0 <= v < |ws| ensures ws'[v] <= mid[v] + 1 {
    }
    SumRise(mid, ws', 1);
    assert |mid| * 1 == |ws|;
  }

  lemma RelaySettled(net: Net, u: nat)
    requires Settled(net) && Enabled(net, Relay(u))
    ensures Settled(Step(net, Relay(u))) && SameMembers(net, Step(net, Relay(u)))
    ensures Rank(Step(net, Relay(u))) <= Rank(net) - 1 && Missing(Step(net, Relay(u))) == Missing(net)
  {
    var net', n := Step(net, Relay(u)), |net.nodes|;
    forall v | 0 <= v < n
      ensures SettledNode(net', v) && net'.nodes[v].local == net.nodes[v].local && Present(net'.nodes[v]) == Present(net.nodes[v])
      ensures Weights(net')[v] <= Weights(net)[v] + 1 - (if u == v then n + 1 else 0)
    {
      RelayNode(net, u, v);
    }
    assert MissingOf(net') == MissingOf(net);
    OneDown(Weights(net), Weights(net'), u);
  }

  /** Nobody comes and nobody goes. */
  ghost predicate SameMembers(net: Net, net': Net) {
    |net'.nodes| == |net.nodes| && forall u :: 0 <= u < |net.nodes| ==> Present(net'.nodes[u]) == Present(net.nodes[u])
  }

  lemma BottomNode(net: Net, u: nat, receive: bool)
    requires Settled(net) && Enabled(net, LoopBottom(u, receive)) && Present(net.nodes[u])
    ensures var net', n, nd := Step(net, LoopBottom(u, receive)), |net.nodes|, net.nodes[u];
            && |net'.nodes| == n && SettledNode(net', u) && Present(net'.nodes[u])
            && |net'.nodes[u].local.peers| == |nd.local.peers| + Sends(net, LoopBottom(u, receive))
            && Weight(net'.nodes[u], n) + (if receive then 1 else 0) <= Weight(nd, n)
  {
    var n, nd, nd' := |net.nodes|, net.nodes[u], Step(net, LoopBottom(u, receive)).nodes[u];
    assert SettledNode(net, u);
    if receive {
      assert Announcement(net, nd.inbox[0]);
    }
    var sends := Sends(net, LoopBottom(u, receive));
    assert |nd'.local.peers| == |nd.local.peers| + sends;
    assert |nd'.outbox| <= |nd.outbox| + sends;
    Monotone(n, n - |nd'.local.peers| + |nd'.outbox|, n - |nd.local.peers| + |nd.outbox|);
  }

  /** A step that changes only node u. */
  ghost predicate OnlyNode(net: Net, net': Net, u: nat) {
    u < |net.nodes| == |net'.nodes| && net'.nodes == net.nodes[u := net'.nodes[u]]
  }

  lemma OneNodeMissing(net: Net, net': Net, u: nat)
    requires OnlyNode(net, net', u)
    ensures var n := |net.nodes|; Missing(net') == Missing(net) + MissingAt(net'.nodes[u], n) - MissingAt(net.nodes[u], n)
  {
    var n := |net.nodes|;
    assert MissingOf(net') == MissingOf(net)[u := MissingAt(net'.nodes[u], n)];
    SumUpdate(MissingOf(net), u, MissingAt(net'.nodes[u], n));
  }

  lemma OneNodeRank(net: Net, net': Net, u: nat)
    requires OnlyNode(net, net', u)
    ensures Rank(net') == Rank(net) + Weight(net'.nodes[u], |net.nodes|) - Weight(net.nodes[u], |net.nodes|)
  {
    var w := Weight(net'.nodes[u], |net.nodes|);
    assert Weights(net') == Weights(net)[u := w];
    SumUpdate(Weights(net), u, w);
  }

  lemma OneNodeSettled(net: Net, net': Net, u: nat)
    requires Settled(net) && OnlyNode(net, net', u) && SettledNode(net', u) && Present(net'.nodes[u]) == Present(net.nodes[u])
    ensures Settled(net') && SameMembers(net, net')
    ensures var n := |net.nodes|; Missing(net') == Missing(net) + MissingAt(net'.nodes[u], n) - MissingAt(net.nodes[u], n)
    ensures Rank(net') == Rank(net) + Weight(net'.nodes[u], |net.nodes|) - Weight(net.nodes[u], |net.nodes|)
  {
    forall v | 0 <= v < |net.nodes| ensures SettledNode(net', v) {
      assert SettledNode(net, v);
    }
    OneNodeMissing(net, net', u);
    OneNodeRank(net, net', u);
  }

  /** What a process that is not a member does alone concerns nobody. */
  lemma OutsideNode(net: Net, a: Action)
    requires Settled(net) && Enabled(net, a) && Calm(net, a) && !Present(net.nodes[a.u])
    ensures OnlyNode(net, Step(net, a), a.u) && SettledNode(Step(net, a), a.u) && !Present(Step(net, a).nodes[a.u])
  {
    assert SettledNode(net, a.u);
  }

  lemma MemberNode(net: Net, a: Action)
    requires Settled(net) && Enabled(net, a) && Calm(net, a) && Present(net.nodes[a.u]) && (a.LinkUp? || a.LoopTop?)
    ensures var net' := Step(net, a);
            && OnlyNode(net, net', a.u) && SettledNode(net', a.u) && Present(net'.nodes[a.u]) && Sends(net, a) == 0
            && net'.nodes[a.u].local.peers == net.nodes[a.u].local.peers
            && Weight(net'.nodes[a.u], |net.nodes|) == Weight(net.nodes[a.u], |net.nodes|)
  {
    assert SettledNode(net, a.u);
    assert net.nodes[a.u].outbox + [] == net.nodes[a.u].outbox;
  }

  lemma StepSettled(net: Net, a: Action)
    requires Settled(net) && Calm(net, a)
    ensures var net' := Step(net, a);
            && Settled(net') && SameMembers(net, net')
            && Rank(net') + (if Moves(net, a) then 1 else 0) <= Rank(net)
            && Missing(net') + Sends(net, a) == Missing(net)
  {
    if Enabled(net, a) {
      var net' := Step(net, a);
      assert SettledNode(net, a.u);
      if a.Relay? {
        RelaySettled(net, a.u);
      } else {
        if !Present(net.nodes[a.u]) {
          OutsideNode(net, a);
        } else if a.LoopBottom? {
          BottomNode(net, a.u, a.receive);
        } else {
          MemberNode(net, a);
        }
        OneNodeSettled(net, net', a.u);
      }
    }
  }

  // ---- whole runs

  ghost predicate AllCalm(net: Net, acts: seq<Action>) {
    forall i :: 0 <= i < |acts| ==> Calm(net, acts[i])
  }

  ghost function Moved(net: Net, acts: seq<Action>): nat {
    if acts == [] then 0 else
      var pre := acts[..|acts| - 1];
      Moved(net, pre) + if Moves(Run(net, pre), acts[|acts| - 1]) then 1 else 0
  }

  function Sent(net: Net, acts: seq<Action>): nat {
    if acts == [] then 0 else
      var pre := acts[..|acts| - 1];
      Sent(net, pre) + Sends(Run(net, pre), acts[|acts| - 1])
  }

  lemma {:induction false} RunSettled(net: Net, acts: seq<Action>)
    requires Settled(net) && AllCalm(net, acts)
    ensures var net' := Run(net, acts);
            && Settled(net') && SameMembers(net, net')
            && Moved(net, acts) + Rank(net') <= Rank(net)
            && Sent(net, acts) + Missing(net') == Missing(net)
  {
    if acts != [] {
      var pre, a := acts[..|acts| - 1], acts[|acts| - 1];
      assert forall i :: 0 <= i < |pre| ==> pre[i] == acts[i];
      RunSettled(net, pre);
      RunGrows(net, pre);
      if a.u < |net.nodes| {
        assert Older(net.nodes[a.u], Run(net, pre).nodes[a.u]);
      }
      assert Calm(net, a);
      StepSettled(Run(net, pre), a);
    }
  }

  lemma RankBounds(net: Net)
    requires Settled(net)
    ensures Rank(net) >= 0 && 0 <= Missing(net) <= |net.nodes| * (|net.nodes| - 1)
  {
    var n := |net.nodes|;
    forall i | 0 <= i < n
      ensures 0 <= MissingOf(net)[i] <= n - 1 && Weights(net)[i] >= 0
    {
      assert SettledNode(net, i);
      var nd := net.nodes[i];
      if Present(nd) {
        BelowCount(nd.local.peers.Keys, n);
        assert |nd.local.peers.Keys| == |nd.local.peers|;
        assert i in nd.local.peers.Keys;
        Monotone(n, 0, n - |nd.local.peers| + |nd.outbox|);
      }
    }
    SumBound(MissingOf(net), n - 1);
    NonNegative(Weights(net));
  }

  /** The gossip terminates: from a settled network, however the processes and the
      proxy are scheduled, at most Rank(net) messages are ever moved and at most
      n(n-1) are ever sent. */
  lemma GossipTerminates(net: Net, acts: seq<Action>)
    requires Settled(net) && AllCalm(net, acts)
    ensures Moved(net, acts) <= Rank(net)
    ensures Sent(net, acts) <= |net.nodes| * (|net.nodes| - 1)
  {
    RunSettled(net, acts);
    RunGrows(net, acts);
    RankBounds(net);
    RankBounds(Run(net, acts));
  }

  /** Where settled networks come from: any reachable state in which every member is
      connected to itself and not leaving, whoever left has had its say delivered, and
      nobody's D waits in a member's inbox. */
  lemma SettledWhenAllIn(cs: seq<Config>, acts: seq<Action>)
    requires Configured(cs) && Orphanless(Run(Start(cs), acts))
    ensures Settled(Run(Start(cs), acts))
  {
    var net := Run(Start(cs), acts);
    Reachable(cs, acts);
    forall u | 0 <= u < |net.nodes| ensures SettledNode(net, u) {
      assert NodeInv(net, u) && OrphanlessNode(net, u);
      if Present(net.nodes[u]) {
        MemberSettled(net, u);
      }
    }
  }

  ghost predicate OrphanlessNode(net: Net, u: nat)
    requires u < |net.nodes|
  {
    var nd := net.nodes[u];
    if Present(nd) then
      Staying(net, u) && SelfConnected(net, u) && forall i :: 0 <= i < |nd.inbox| ==> nd.inbox[i].command != DISCONNECT
    else nd.outbox == []
  }

  ghost predicate Orphanless(net: Net) {
    forall u :: 0 <= u < |net.nodes| ==> OrphanlessNode(net, u)
  }

  lemma MemberSettled(net: Net, u: nat)
    requires Inv(net) && u < |net.nodes| && Present(net.nodes[u]) && OrphanlessNode(net, u)
    ensures SettledMember(net, u)
  {
    assert NodeInv(net, u);
    var nd := net.nodes[u];
    forall i | 0 <= i < |nd.inbox| ensures Announcement(net, nd.inbox[i]) {
      assert nd.inbox[i] == Welcome(net) || Genuine(net, nd.inbox[i]);
      GenuineAnnouncement(net, nd.inbox[i]);
    }
    forall i | 0 <= i < |nd.outbox| ensures Announcement(net, nd.outbox[i]) {
      assert Genuine(net, nd.outbox[i]) && nd.outbox[i].uuid == u;
      GenuineAnnouncement(net, nd.outbox[i]);
    }
    forall k | k in nd.local.peers ensures k < |net.nodes| {
      assert Genuine(net, ConnectMsg(CONNECT, k, nd.local.peers[k]));
    }
  }

  lemma GenuineAnnouncement(net: Net, m: ConnectMsg)
    requires Inv(net) && (m == Welcome(net) || Genuine(net, m))
    requires m.command != DISCONNECT || (m.uuid < |net.nodes| && !net.nodes[m.uuid].departing)
    ensures Announcement(net, m)
  {
    if m != Welcome(net) {
      assert NodeInv(net, m.uuid);
    }
  }

  // ---- and it does finish

  lemma {:induction false} RunFirst(net: Net, a: Action, acts: seq<Action>)
    ensures Run(net, [a] + acts) == Run(Step(net, a), acts)
  {
    var all := [a] + acts;
    if acts == [] {
      assert all[..0] == [] && Run(net, all[..0]) == net;
    } else {
      assert all[..|all| - 1] == [a] + acts[..|acts| - 1];
      RunFirst(net, a, acts[..|acts| - 1]);
    }
  }

  /** It is nobody's time to leave yet. */
  ghost predicate Early(net: Net) {
    forall u :: 0 <= u < |net.nodes| && Present(net.nodes[u]) ==> !Expired(net.nodes[u].cfg, net.clock)
  }

  /** One action that moves a message, or a turn that leads to one. */
  lemma Progress(net: Net) returns (acts: seq<Action>)
    requires Settled(net) && Early(net) && !Quiet(net)
    ensures var net' := Run(net, acts);
            Settled(net') && Early(net') && Rank(net') < Rank(net) && AllCalm(net, acts)
  {
    var u :| 0 <= u < |net.nodes| && !(net.nodes[u].outbox == [] && (Present(net.nodes[u]) ==> net.nodes[u].inbox == []));
    assert SettledNode(net, u);
    var nd := net.nodes[u];
    if nd.outbox != [] {
      acts := [Relay(u)];
      OneAction(net, Relay(u));
    } else if nd.local.polling {
      acts := [LoopBottom(u, true)];
      OneAction(net, LoopBottom(u, true));
    } else {
      var a, b := LoopTop(u, net.clock), LoopBottom(u, true);
      acts := [a] + [b];
      OneAction(net, a);
      OneAction(Step(net, a), b);
      RunFirst(net, a, [b]);
    }
  }

  lemma OneAction(net: Net, a: Action)
    requires Settled(net) && Early(net) && Calm(net, a) && (a.LoopTop? ==> a.now == net.clock)
    ensures Run(net, [a]) == Step(net, a) && Calm(net, a)
    ensures Settled(Step(net, a)) && Early(Step(net, a))
    ensures Rank(Step(net, a)) <= Rank(net) && (Moves(net, a) ==> Rank(Step(net, a)) < Rank(net))
  {
    RunFirst(net, a, []);
    assert [a] + [] == [a];
    StepSettled(net, a);
    StepGrows(net, a);
    forall u | 0 <= u < |net.nodes| && Present(Step(net, a).nodes[u])
      ensures !Expired(Step(net, a).nodes[u].cfg, Step(net, a).clock)
    {
      assert Older(net.nodes[u], Step(net, a).nodes[u]);
    }
  }

  lemma {:induction false} RunAppend(net: Net, acts: seq<Action>, more: seq<Action>)
    ensures Run(net, acts + more) == Run(Run(net, acts), more)
  {
    if more == [] {
      assert acts + more == acts;
    } else {
      assert (acts + more)[..|acts + more| - 1] == acts + more[..|more| - 1];
      RunAppend(net, acts, more[..|more| - 1]);
    }
  }

  /** From a settled network some schedule empties every queue before anyone's time
      to leave; with GossipTerminates, every schedule that keeps moving messages ends
      there. */
  lemma {:induction false} Completes(net: Net) returns (acts: seq<Action>)
    requires Settled(net) && Early(net)
    ensures AllCalm(net, acts) && Quiet(Run(net, acts)) && Settled(Run(net, acts)) && Early(Run(net, acts))
    decreases Rank(net)
  {
    RankBounds(net);
    if Quiet(net) {
      acts := [];
    } else {
      var first := Progress(net);
      var net1 := Run(net, first);
      RankBounds(net1);
      var rest := Completes(net1);
      acts := first + rest;
      RunAppend(net, first, rest);
      RunGrows(net, first);
      forall i | 0 <= i < |acts| ensures Calm(net, acts[i]) {
        if i >= |first| {
          assert acts[i] == rest[i - |first|];
          if acts[i].u < |net.nodes| {
            assert Older(net.nodes[acts[i].u], net1.nodes[acts[i].u]);
          }
        }
      }
    }
  }

  lemma {:induction false} NobodyLeaves(net: Net, acts: seq<Action>)
    requires AllCalm(net, acts)
    ensures var net' := Run(net, acts);
            |net'.nodes| == |net.nodes| && forall u :: 0 <= u < |net.nodes| ==> net'.nodes[u].departing == net.nodes[u].departing
  {
    if acts != [] {
      var pre, a := acts[..|acts| - 1], acts[|acts| - 1];
      assert forall i :: 0 <= i < |pre| ==> pre[i] == acts[i];
      NobodyLeaves(net, pre);
      RunGrows(net, pre);
      if a.u < |net.nodes| {
        assert Older(net.nodes[a.u], Run(net, pre).nodes[a.u]);
      }
      assert Calm(net, a);
    }
  }

  /** Put together: from such a state any further schedule without joins and departures
      that leaves no message undelivered has every member know exactly the members. */
  lemma DiscoverySucceeds(cs: seq<Config>, acts: seq<Action>, more: seq<Action>, v: nat)
    requires Configured(cs) && Orphanless(Run(Start(cs), acts))
    requires var net := Run(Start(cs), acts);
             AllCalm(net, more) && Quiet(Run(net, more)) && v in Members(net)
    ensures var net, end := Run(Start(cs), acts), Run(Run(Start(cs), acts), more);
            Members(end) == Members(net) && end.nodes[v].local.peers.Keys == Members(net)
  {
    var net := Run(Start(cs), acts);
    var end := Run(net, more);
    SettledWhenAllIn(cs, acts);
    RunSettled(net, more);
    NobodyLeaves(net, more);
    RunAppend(Start(cs), acts, more);
    assert Members(end) == Members(net);
    forall u | 0 <= u < |end.nodes| && u in Members(end) ensures Staying(end, u) && SelfConnected(end, u) {
      assert SettledNode(end, u) && OrphanlessNode(net, u);
    }
    Converges(cs, acts + more, v);
  }
}
