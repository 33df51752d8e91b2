/** Convergence of the discovery network, in the presence of other processes coming
    and going. */
module Convergence {
  import opened Wrappers
  import opened Peer
  import opened Discovery
  import opened Departure

  // ---- two processes that stay

  ghost predicate Staying(net: Net, u: nat) {
    u < |net.nodes| && !net.nodes[u].departing
  }

  /** v knows u, or is about to. */
  ghost predicate Heard(net: Net, v: nat, u: nat)
    requires u < |net.nodes| && v < |net.nodes|
  {
    u in net.nodes[v].local.peers || Hello(net.nodes[u].cfg) in net.nodes[v].inbox
  }

  /** u has answered v, or will. */
  ghost predicate Answered(net: Net, u: nat, v: nat)
    requires u < |net.nodes| && v < |net.nodes|
  {
    Heard(net, u, u) && v in net.nodes[u].local.peers
    ==> Heard(net, v, u) || Hello(net.nodes[u].cfg) in net.nodes[u].outbox
  }

  /** Of two processes that both got their own announcement back, one heard the other. */
  ghost predicate OneHeard(net: Net, u: nat, v: nat)
    requires u < |net.nodes| && v < |net.nodes|
  {
    Heard(net, u, u) && Heard(net, v, v) ==> Heard(net, v, u) || Heard(net, u, v)
  }

  ghost predicate PairInv(net: Net, u: nat, v: nat) {
    Staying(net, u) && Staying(net, v) ==> Answered(net, u, v) && Answered(net, v, u) && OneHeard(net, u, v)
  }

  lemma HeardIsLive(net: Net, v: nat, u: nat)
    requires Inv(net) && u < |net.nodes| && v < |net.nodes| && Heard(net, v, u)
    ensures net.nodes[u].live && net.nodes[u].joined
  {
    assert NodeInv(net, v) && NodeInv(net, u);
    if u in net.nodes[v].local.peers {
      assert Genuine(net, ConnectMsg(CONNECT, u, net.nodes[v].local.peers[u]));
    } else {
      var i :| 0 <= i < |net.nodes[v].inbox| && net.nodes[v].inbox[i] == Hello(net.nodes[u].cfg);
      assert Genuine(net, net.nodes[v].inbox[i]);
    }
  }

  lemma HeardStays(net: Net, a: Action, v: nat, u: nat)
    requires Inv(net) && u < |net.nodes| && v < |net.nodes|
    requires Staying(Step(net, a), u) && Heard(net, v, u)
    ensures Heard(Step(net, a), v, u)
  {
    StepGrows(net, a);
    var nd := net.nodes[v];
    assert NodeInv(net, v) && NodeInv(net, u);
    assert Older(net.nodes[u], Step(net, a).nodes[u]);
    if Enabled(net, a) && a.LoopBottom? && a.u == v && a.receive {
      var m := nd.inbox[0];
      assert m == Welcome(net) || Genuine(net, m);
      assert nd.inbox == [m] + nd.inbox[1..];
      TurnEffect(nd.cfg, nd.local, Some(m), u);
    }
  }

  /** Something new is heard of u only when the proxy relays u's announcement; then
      every process present hears it. */
  lemma HeardByRelay(net: Net, a: Action, v: nat, u: nat)
    requires Inv(net) && u < |net.nodes| && v < |net.nodes|
    requires !Heard(net, v, u) && Heard(Step(net, a), v, u)
    ensures a == Relay(u) && Enabled(net, a) && net.nodes[u].outbox[0] == Hello(net.nodes[u].cfg)
  {
    StepGrows(net, a);
    assert Older(net.nodes[u], Step(net, a).nodes[u]);
    assert NodeInv(net, v) && NodeInv(net, u) && NodeInv(net, a.u);
    var nd := net.nodes[v];
    if a.Relay? {
      assert Genuine(net, net.nodes[a.u].outbox[0]);
    } else if a.LoopBottom? && a.u == v {
      NotHeardInTurn(net, v, a.receive, u);
    }
  }

  lemma NotHeardInTurn(net: Net, v: nat, receive: bool, u: nat)
    requires Inv(net) && u < |net.nodes| && v < |net.nodes|
    requires !Heard(net, v, u) && Enabled(net, LoopBottom(v, receive))
    ensures !Heard(Step(net, LoopBottom(v, receive)), v, u)
  {
    var nd := net.nodes[v];
    assert NodeInv(net, v);
    TurnEffect(nd.cfg, nd.local, if receive then Some(nd.inbox[0]) else None, u);
    if receive {
      assert nd.inbox[0] == Welcome(net) || Genuine(net, nd.inbox[0]);
      assert nd.inbox == [nd.inbox[0]] + nd.inbox[1..];
      assert nd.inbox[0] != Hello(net.nodes[u].cfg);
    }
  }

  lemma RelayIsHeard(net: Net, u: nat, v: nat)
    requires Inv(net) && Enabled(net, Relay(u)) && v < |net.nodes| && Present(net.nodes[v])
    requires net.nodes[u].outbox[0] == Hello(net.nodes[u].cfg)
    ensures Heard(Step(net, Relay(u)), v, u)
  {
    var inbox := Step(net, Relay(u)).nodes[v].inbox;
    assert inbox[|inbox| - 1] == Hello(net.nodes[u].cfg);
  }

  /** A process with its link up answers whoever it sees for the first time. */
  lemma FirstSight(net: Net, a: Action, u: nat, v: nat)
    requires Inv(net) && u != v && u < |net.nodes| && net.nodes[u].live
    requires v !in net.nodes[u].local.peers && v in Step(net, a).nodes[u].local.peers
    ensures Hello(net.nodes[u].cfg) in Step(net, a).nodes[u].outbox
  {
    var nd := net.nodes[u];
    assert NodeInv(net, u);
    assert a == LoopBottom(u, true);
    TurnEffect(nd.cfg, nd.local, Some(nd.inbox[0]), v);
    var outbox := Step(net, a).nodes[u].outbox;
    assert outbox[|outbox| - 1] == Hello(nd.cfg);
  }

  /** An answer on its way stays there or is delivered. */
  lemma AnswerMoves(net: Net, a: Action, u: nat, v: nat)
    requires Inv(net) && u < |net.nodes| && v < |net.nodes| && Present(net.nodes[v])
    requires Hello(net.nodes[u].cfg) in net.nodes[u].outbox
    ensures Heard(Step(net, a), v, u) || Hello(net.nodes[u].cfg) in Step(net, a).nodes[u].outbox
  {
    var nd := net.nodes[u];
    if Enabled(net, a) && a == Relay(u) {
      assert nd.outbox == [nd.outbox[0]] + nd.outbox[1..];
      if nd.outbox[0] == Hello(nd.cfg) {
        RelayIsHeard(net, u, v);
      }
    }
  }

  lemma KnownIsPresent(net: Net, u: nat, v: nat)
    requires Inv(net) && u < |net.nodes| && Staying(net, v) && Heard(net, u, v)
    ensures Present(net.nodes[v])
  {
    HeardIsLive(net, u, v);
    assert NodeInv(net, v);
  }

  lemma AnsweredStays(net: Net, a: Action, u: nat, v: nat)
    requires Inv(net) && u != v && Staying(net, v) && Staying(Step(net, a), u)
    requires u < |net.nodes| && Answered(net, u, v)
    ensures Answered(Step(net, a), u, v)
  {
    var net' := Step(net, a);
    StepGrows(net, a);
    assert Older(net.nodes[u], net'.nodes[u]);
    if Heard(net', u, u) && v in net'.nodes[u].local.peers {
      if Heard(net, v, u) {
        HeardStays(net, a, v, u);
      } else if v !in net.nodes[u].local.peers {
        if !Heard(net, u, u) {
          HeardByRelay(net, a, u, u);
        }
        HeardIsLive(net, u, u);
        FirstSight(net, a, u, v);
      } else {
        KnownIsPresent(net, u, v);
        if Heard(net, u, u) {
          AnswerMoves(net, a, u, v);
        } else {
          HeardByRelay(net, a, u, u);
          RelayIsHeard(net, u, v);
        }
      }
    }
  }

  lemma OneHeardStays(net: Net, a: Action, u: nat, v: nat)
    requires Inv(net) && u != v && Staying(Step(net, a), u) && Staying(Step(net, a), v)
    requires u < |net.nodes| && v < |net.nodes| && OneHeard(net, u, v)
    ensures OneHeard(Step(net, a), u, v)
  {
    var net' := Step(net, a);
    StepGrows(net, a);
    assert Older(net.nodes[u], net'.nodes[u]) && Older(net.nodes[v], net'.nodes[v]);
    assert NodeInv(net, u) && NodeInv(net, v);
    if Heard(net', u, u) && Heard(net', v, v) {
      if Heard(net, v, u) {
        HeardStays(net, a, v, u);
      } else if Heard(net, u, v) {
        HeardStays(net, a, u, v);
      } else if !Heard(net, u, u) {
        HeardByRelay(net, a, u, u);
        if !Heard(net, v, v) {
          HeardByRelay(net, a, v, v);
        }
        HeardIsLive(net, v, v);
        RelayIsHeard(net, u, v);
      } else {
        HeardByRelay(net, a, v, v);
        HeardIsLive(net, u, u);
        RelayIsHeard(net, v, u);
      }
    }
  }

  lemma {:induction false} PairReachable(cs: seq<Config>, acts: seq<Action>, u: nat, v: nat)
    requires Configured(cs) && u < |cs| && v < |cs| && u != v
    ensures PairInv(Run(Start(cs), acts), u, v)
  {
    Reachable(cs, acts);
    if acts != [] {
      var net, a := Run(Start(cs), acts[..|acts| - 1]), acts[|acts| - 1];
      Reachable(cs, acts[..|acts| - 1]);
      PairReachable(cs, acts[..|acts| - 1], u, v);
      var net' := Step(net, a);
      StepGrows(net, a);
      assert Older(net.nodes[u], net'.nodes[u]) && Older(net.nodes[v], net'.nodes[v]);
      if Staying(net', u) && Staying(net', v) {
        AnsweredStays(net, a, u, v);
        AnsweredStays(net, a, v, u);
        OneHeardStays(net, a, u, v);
      }
    }
  }

  // ---- the theorems

  ghost predicate SelfConnected(net: Net, u: nat)
    requires u < |net.nodes|
  {
    u in net.nodes[u].local.peers
  }

  /** Nothing of u is on its way to v. */
  ghost predicate Drained(net: Net, u: nat, v: nat)
    requires u < |net.nodes| && v < |net.nodes|
  {
    Hello(net.nodes[u].cfg) !in net.nodes[u].outbox && Hello(net.nodes[u].cfg) !in net.nodes[v].inbox
  }

  /** Two processes that are connected to themselves and not leaving know each other
      once nothing between them is in flight -- whenever they joined, whatever was
      lost before a link came up, and whatever all the others are doing. */
  lemma PairConverges(cs: seq<Config>, acts: seq<Action>, u: nat, v: nat)
    requires Configured(cs) && u < |cs| && v < |cs|
    requires var net := Run(Start(cs), acts);
             && |net.nodes| == |cs|
             && Staying(net, u) && Staying(net, v)
             && SelfConnected(net, u) && SelfConnected(net, v)
             && Drained(net, u, v) && Drained(net, v, u)
    ensures var net := Run(Start(cs), acts);
            u in net.nodes[v].local.peers && v in net.nodes[u].local.peers
  {
    if u != v {
      PairReachable(cs, acts, u, v);
    }
  }

  ghost predicate Quiet(net: Net) {
    forall u :: 0 <= u < |net.nodes| ==>
      net.nodes[u].outbox == [] && (Present(net.nodes[u]) ==> net.nodes[u].inbox == [])
  }

  /** The processes taking part: subscribed and still in their loop. */
  ghost function Members(net: Net): set<Uuid> {
    set u | 0 <= u < |net.nodes| && Present(net.nodes[u])
  }

  /** Convergence: when the network is quiet and every member is connected to itself
      and not leaving, every member's map is exactly the membership, each with its
      own endpoint -- after any history of joins, departures and lost replies. */
  lemma Converges(cs: seq<Config>, acts: seq<Action>, v: nat)
    requires Configured(cs)
    requires var net := Run(Start(cs), acts);
             && Quiet(net) && v in Members(net)
             && forall u :: 0 <= u < |net.nodes| && u in Members(net) ==> Staying(net, u) && SelfConnected(net, u)
    ensures var net := Run(Start(cs), acts);
            && net.nodes[v].local.peers.Keys == Members(net)
            && forall u :: u in net.nodes[v].local.peers ==> u < |cs| && net.nodes[v].local.peers[u] == cs[u].endpoint
  {
    var net := Run(Start(cs), acts);
    Reachable(cs, acts);
    assert NodeInv(net, v);
    forall u | u in Members(net) ensures u in net.nodes[v].local.peers {
      PairConverges(cs, acts, u, v);
    }
    forall u | u in net.nodes[v].local.peers ensures u in Members(net) && net.nodes[v].local.peers[u] == cs[u].endpoint {
      assert Genuine(net, ConnectMsg(CONNECT, u, net.nodes[v].local.peers[u]));
      assert NodeInv(net, u);
      if !net.nodes[u].local.running {
        NoStaleMember(cs, acts, u, v);
      }
    }
  }
}
