/** The discovery network: processes of 3186/peer.cpp around the broadcast proxy of
    3186/proxy.c.  A run is any list of actions; an action that is not enabled does
    nothing, so the states of Run are exactly the reachable ones. */
module Discovery {
  import opened Wrappers
  import opened Peer

  /** `joined`: the proxy has this process's subscription (and has sent the welcome
      message).  `live`: proxyPub's link to the proxy is up; before that a PUB
      socket drops what it is given.  `departing`: a D was sent (history). */
  datatype Node = Node(
    cfg: Config,
    local: Local,
    joined: bool,
    live: bool,
    inbox: seq<ConnectMsg>,
    outbox: seq<ConnectMsg>,
    departing: bool)

  datatype Net = Net(nodes: seq<Node>, clock: int)

  datatype Action =
    | Join(u: nat)                       // subscription reaches the proxy
    | LinkUp(u: nat)                     // the PUB link connected by W becomes live
    | Relay(u: nat)                      // zmq_proxy forwards one message of u
    | LoopTop(u: nat, now: int)          // loop top to zmq_poll
    | LoopBottom(u: nat, receive: bool)  // zmq_poll to the end of the turn

  const FRONTEND: Endpoint := "frontend"

  /** Set on the XPUB socket, delivered on every new subscription. */
  function Welcome(net: Net): ConnectMsg {
    ConnectMsg(WELCOME, |net.nodes|, FRONTEND)
  }

  ghost predicate Configured(cs: seq<Config>) {
    forall i :: 0 <= i < |cs| ==> cs[i].uuid == i
  }

  function Start(cs: seq<Config>): Net {
    Net(seq(|cs|, i requires 0 <= i < |cs| => Node(cs[i], BEGIN, false, false, [], [], false)), 0)
  }

  predicate Present(nd: Node) {
    nd.joined && nd.local.running
  }

  predicate Enabled(net: Net, a: Action) {
    a.u < |net.nodes| &&
    var nd := net.nodes[a.u];
    match a
    case Join(_) => nd.local.running && !nd.joined
    case LinkUp(_) => nd.local.running && FRONTEND in nd.local.proxies && !nd.live
    case Relay(_) => nd.outbox != []
    case LoopTop(_, now) => nd.local.running && !nd.local.polling && now >= net.clock
    case LoopBottom(_, receive) => nd.local.running && nd.local.polling && (receive ==> nd.inbox != [])
  }

  function Sending(nd: Node, l: Local, msgs: seq<ConnectMsg>): Node {
    nd.(local := l, outbox := if nd.live then nd.outbox + msgs else nd.outbox)
  }

  function Delivered(nd: Node, m: ConnectMsg): Node {
    if Present(nd) then nd.(inbox := nd.inbox + [m]) else nd
  }

  function Step(net: Net, a: Action): Net {
    if !Enabled(net, a) then net else
      var nd := net.nodes[a.u];
      match a
      case Join(u) =>
        net.(nodes := net.nodes[u := nd.(joined := true, inbox := [Welcome(net)])])
      case LinkUp(u) =>
        net.(nodes := net.nodes[u := nd.(live := true)])
      case Relay(u) =>
        var rest := net.nodes[u := nd.(outbox := nd.outbox[1..])];
        net.(nodes := seq(|rest|, i requires 0 <= i < |rest| => Delivered(rest[i], nd.outbox[0])))
      case LoopTop(u, now) =>
        var (l, msgs) := Top(nd.cfg, nd.local, now);
        Net(net.nodes[u := Sending(nd, l, msgs).(departing := nd.departing || msgs != [])], now)
      case LoopBottom(u, receive) =>
        var got := if receive then Some(nd.inbox[0]) else None;
        var (l, msgs) := Bottom(nd.cfg, nd.local, got);
        net.(nodes := net.nodes[u := Sending(nd, l, msgs).(inbox := if receive then nd.inbox[1..] else nd.inbox)])
  }

  function Run(net: Net, acts: seq<Action>): Net {
    if acts == [] then net else Step(Run(net, acts[..|acts| - 1]), acts[|acts| - 1])
  }

  // ---- what every reachable state satisfies, node by node

  /** A message only its named sender can have put there. */
  ghost predicate Genuine(net: Net, m: ConnectMsg) {
    && m.uuid < |net.nodes|
    && var s := net.nodes[m.uuid];
       && s.live
       && (m == Hello(s.cfg) || (m == Bye(s.cfg) && s.departing))
  }

  ghost predicate NodeInv(net: Net, u: nat)
    requires u < |net.nodes|
  {
    var nd := net.nodes[u];
    && nd.cfg.uuid == u
    && (!nd.joined ==> nd.inbox == [] && nd.local.peers == map[] && nd.local.connected == {} && nd.local.proxies == {})
    && (nd.live ==> nd.joined)
    && (!nd.live ==> nd.outbox == [])
    && (nd.departing ==> 0 < nd.cfg.endTime < net.clock)
    && (!nd.departing ==> nd.local.running)
    && (forall i :: 0 <= i < |nd.outbox| ==> Genuine(net, nd.outbox[i]) && nd.outbox[i].uuid == u)
    && (forall i :: 0 <= i < |nd.inbox| ==> nd.inbox[i] == Welcome(net) || Genuine(net, nd.inbox[i]))
    && (forall k :: k in nd.local.peers ==> Genuine(net, ConnectMsg(CONNECT, k, nd.local.peers[k])))
  }

  ghost predicate Inv(net: Net) {
    forall u :: 0 <= u < |net.nodes| ==> NodeInv(net, u)
  }

  /** Identity never changes; joining, linking and leaving are for good. */
  ghost predicate Grows(net: Net, net': Net) {
    && |net'.nodes| == |net.nodes|
    && net.clock <= net'.clock
    && forall u :: 0 <= u < |net.nodes| ==> Older(net.nodes[u], net'.nodes[u])
  }

  ghost predicate Older(nd: Node, nd': Node) {
    && nd'.cfg == nd.cfg
    && (nd.joined ==> nd'.joined)
    && (nd.live ==> nd'.live)
    && (nd.departing ==> nd'.departing)
    && (!nd.local.running ==> !nd'.local.running)
  }

  lemma StepGrows(net: Net, a: Action)
    ensures Grows(net, Step(net, a))
  {
  }

  lemma {:induction false} RunGrows(net: Net, acts: seq<Action>)
    ensures Grows(net, Run(net, acts))
  {
    if acts != [] {
      var mid := Run(net, acts[..|acts| - 1]);
      RunGrows(net, acts[..|acts| - 1]);
      StepGrows(mid, acts[|acts| - 1]);
      forall u | 0 <= u < |net.nodes| ensures Older(net.nodes[u], Run(net, acts).nodes[u]) {
        assert Older(net.nodes[u], mid.nodes[u]);
        assert Older(mid.nodes[u], Run(net, acts).nodes[u]);
      }
    }
  }

  lemma GenuineStays(net: Net, net': Net, m: ConnectMsg)
    requires Grows(net, net') && Genuine(net, m)
    ensures Genuine(net', m)
  {
    assert Older(net.nodes[m.uuid], net'.nodes[m.uuid]);
  }

  /** A node a step did not touch keeps its part of the invariant. */
  lemma NodeUntouched(net: Net, net': Net, u: nat)
    requires Grows(net, net') && u < |net.nodes| && NodeInv(net, u)
    requires net'.nodes[u] == net.nodes[u]
    ensures NodeInv(net', u)
  {
    var nd := net.nodes[u];
    forall i | 0 <= i < |nd.outbox| ensures Genuine(net', nd.outbox[i]) {
      GenuineStays(net, net', nd.outbox[i]);
    }
    forall i | 0 <= i < |nd.inbox| ensures nd.inbox[i] == Welcome(net') || Genuine(net', nd.inbox[i]) {
      if nd.inbox[i] != Welcome(net) {
        GenuineStays(net, net', nd.inbox[i]);
      }
    }
    forall k | k in nd.local.peers ensures Genuine(net', ConnectMsg(CONNECT, k, nd.local.peers[k])) {
      GenuineStays(net, net', ConnectMsg(CONNECT, k, nd.local.peers[k]));
    }
  }

  lemma RelayKeepsNode(net: Net, u: nat, v: nat)
    requires Inv(net) && Enabled(net, Relay(u)) && v < |net.nodes|
    ensures NodeInv(Step(net, Relay(u)), v)
  {
    var net' := Step(net, Relay(u));
    StepGrows(net, Relay(u));
    var nd, nd' := net.nodes[v], net'.nodes[v];
    var m := net.nodes[u].outbox[0];
    assert NodeInv(net, u) && NodeInv(net, v);
    GenuineStays(net, net', m);
    forall i | 0 <= i < |nd'.outbox| ensures Genuine(net', nd'.outbox[i]) && nd'.outbox[i].uuid == v {
      GenuineStays(net, net', nd.outbox[if u == v then i + 1 else i]);
    }
    forall i | 0 <= i < |nd'.inbox| ensures nd'.inbox[i] == Welcome(net') || Genuine(net', nd'.inbox[i]) {
      if i < |nd.inbox| && nd.inbox[i] != Welcome(net) {
        GenuineStays(net, net', nd.inbox[i]);
      }
    }
    forall k | k in nd.local.peers ensures Genuine(net', ConnectMsg(CONNECT, k, nd.local.peers[k])) {
      GenuineStays(net, net', ConnectMsg(CONNECT, k, nd.local.peers[k]));
    }
  }

  lemma TopKeepsNode(net: Net, u: nat, now: int)
    requires Inv(net) && Enabled(net, LoopTop(u, now))
    ensures NodeInv(Step(net, LoopTop(u, now)), u)
  {
    var net' := Step(net, LoopTop(u, now));
    StepGrows(net, LoopTop(u, now));
    var nd, nd' := net.nodes[u], net'.nodes[u];
    assert NodeInv(net, u);
    forall i | 0 <= i < |nd'.outbox| ensures Genuine(net', nd'.outbox[i]) && nd'.outbox[i].uuid == u {
      if i < |nd.outbox| {
        GenuineStays(net, net', nd.outbox[i]);
      }
    }
    forall i | 0 <= i < |nd.inbox| ensures nd.inbox[i] == Welcome(net') || Genuine(net', nd.inbox[i]) {
      if nd.inbox[i] != Welcome(net) {
        GenuineStays(net, net', nd.inbox[i]);
      }
    }
    forall k | k in nd.local.peers ensures Genuine(net', ConnectMsg(CONNECT, k, nd.local.peers[k])) {
      GenuineStays(net, net', ConnectMsg(CONNECT, k, nd.local.peers[k]));
    }
  }

  lemma BottomKeepsMail(net: Net, u: nat, receive: bool)
    requires Inv(net) && Enabled(net, LoopBottom(u, receive))
    ensures var net' := Step(net, LoopBottom(u, receive));
            var nd' := net'.nodes[u];
            && (forall i :: 0 <= i < |nd'.outbox| ==> Genuine(net', nd'.outbox[i]) && nd'.outbox[i].uuid == u)
            && (forall i :: 0 <= i < |nd'.inbox| ==> nd'.inbox[i] == Welcome(net') || Genuine(net', nd'.inbox[i]))
  {
    var net' := Step(net, LoopBottom(u, receive));
    StepGrows(net, LoopBottom(u, receive));
    var nd, nd' := net.nodes[u], net'.nodes[u];
    assert NodeInv(net, u);
    forall i | 0 <= i < |nd'.outbox| ensures Genuine(net', nd'.outbox[i]) && nd'.outbox[i].uuid == u {
      if i < |nd.outbox| {
        GenuineStays(net, net', nd.outbox[i]);
      }
    }
    forall i | 0 <= i < |nd'.inbox| ensures nd'.inbox[i] == Welcome(net') || Genuine(net', nd'.inbox[i]) {
      var j := if receive then i + 1 else i;
      if nd.inbox[j] != Welcome(net) {
        GenuineStays(net, net', nd.inbox[j]);
      }
    }
  }

  lemma BottomKeepsNode(net: Net, u: nat, receive: bool)
    requires Inv(net) && Enabled(net, LoopBottom(u, receive))
    ensures NodeInv(Step(net, LoopBottom(u, receive)), u)
  {
    var net' := Step(net, LoopBottom(u, receive));
    StepGrows(net, LoopBottom(u, receive));
    BottomKeepsMail(net, u, receive);
    var nd, l' := net.nodes[u], net'.nodes[u].local;
    assert NodeInv(net, u);
    if receive {
      assert nd.inbox[0] == Welcome(net) || Genuine(net, nd.inbox[0]);
    }
    forall k | k in l'.peers ensures Genuine(net', ConnectMsg(CONNECT, k, l'.peers[k])) {
      GenuineStays(net, net', if k in nd.local.peers then ConnectMsg(CONNECT, k, nd.local.peers[k]) else nd.inbox[0]);
    }
  }

  lemma JoinOrLinkKeepsNode(net: Net, a: Action)
    requires Inv(net) && (a.Join? || a.LinkUp?) && Enabled(net, a)
    ensures NodeInv(Step(net, a), a.u)
  {
    var net', nd := Step(net, a), net.nodes[a.u];
    StepGrows(net, a);
    assert NodeInv(net, a.u);
    forall i | 0 <= i < |nd.inbox| ensures nd.inbox[i] == Welcome(net') || Genuine(net', nd.inbox[i]) {
      if nd.inbox[i] != Welcome(net) {
        GenuineStays(net, net', nd.inbox[i]);
      }
    }
    forall k | k in nd.local.peers ensures Genuine(net', ConnectMsg(CONNECT, k, nd.local.peers[k])) {
      GenuineStays(net, net', ConnectMsg(CONNECT, k, nd.local.peers[k]));
    }
  }

  lemma StepKeepsInv(net: Net, a: Action)
    requires Inv(net)
    ensures Inv(Step(net, a))
  {
    var net' := Step(net, a);
    StepGrows(net, a);
    if Enabled(net, a) {
      forall v | 0 <= v < |net.nodes| ensures NodeInv(net', v) {
        assert NodeInv(net, v);
        if a.Relay? {
          RelayKeepsNode(net, a.u, v);
        } else if v != a.u {
          NodeUntouched(net, net', v);
        } else if a.LoopTop? {
          TopKeepsNode(net, v, a.now);
        } else if a.LoopBottom? {
          BottomKeepsNode(net, v, a.receive);
        } else {
          JoinOrLinkKeepsNode(net, a);
        }
      }
    }
  }

  lemma {:induction false} Reachable(cs: seq<Config>, acts: seq<Action>)
    requires Configured(cs)
    ensures var net := Run(Start(cs), acts);
            && Inv(net) && |net.nodes| == |cs|
            && forall u :: 0 <= u < |cs| ==> net.nodes[u].cfg == cs[u]
  {
    var net := Run(Start(cs), acts);
    RunGrows(Start(cs), acts);
    forall u | 0 <= u < |cs| ensures net.nodes[u].cfg == cs[u] {
      assert Older(Start(cs).nodes[u], net.nodes[u]);
    }
    if acts != [] {
      Reachable(cs, acts[..|acts| - 1]);
      StepKeepsInv(Run(Start(cs), acts[..|acts| - 1]), acts[|acts| - 1]);
    }
  }
}
