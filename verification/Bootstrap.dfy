/** Discovery never gets stuck: however a run began -- late joins, announcements and
    replies lost before a link was up, processes gone or about to go -- it can still be
    continued until those who are due have left and all the others know each other. */
module Bootstrap {
  import opened Peer
  import opened Discovery
  import opened Convergence
  import opened Gossip

  // ---- schedules

  /** The welcome message is delivered once, on joining, and not lost. */
  ghost predicate Welcomed(net: Net, u: nat)
    requires u < |net.nodes|
  {
    var nd := net.nodes[u];
    nd.joined ==> FRONTEND in nd.local.proxies || Welcome(net) in nd.inbox
  }

  ghost predicate Sane(net: Net) {
    Inv(net) && forall u :: 0 <= u < |net.nodes| ==> Welcomed(net, u)
  }

  lemma WelcomedStep(net: Net, a: Action, u: nat)
    requires u < |net.nodes| && Welcomed(net, u)
    ensures |Step(net, a).nodes| == |net.nodes| && Welcomed(Step(net, a), u)
  {
    var nd := net.nodes[u];
    if Enabled(net, a) && a == LoopBottom(u, true) {
      assert nd.inbox == [nd.inbox[0]] + nd.inbox[1..];
    }
  }

  lemma {:induction false} WelcomedReachable(cs: seq<Config>, acts: seq<Action>, u: nat)
    requires Configured(cs) && u < |cs|
    ensures |Run(Start(cs), acts).nodes| == |cs| && Welcomed(Run(Start(cs), acts), u)
  {
    if acts != [] {
      WelcomedReachable(cs, acts[..|acts| - 1], u);
      WelcomedStep(Run(Start(cs), acts[..|acts| - 1]), acts[|acts| - 1], u);
    }
  }

  lemma SaneReachable(cs: seq<Config>, acts: seq<Action>)
    requires Configured(cs)
    ensures Sane(Run(Start(cs), acts)) && |Run(Start(cs), acts).nodes| == |cs|
  {
    Reachable(cs, acts);
    forall u | 0 <= u < |cs| ensures Welcomed(Run(Start(cs), acts), u) {
      WelcomedReachable(cs, acts, u);
    }
  }

  /** Actions of u alone, and of the proxy with u's messages. */
  ghost predicate OnlyBy(acts: seq<Action>, u: nat) {
    forall i :: 0 <= i < |acts| ==> acts[i].u == u
  }

  /** What that does to another process: it may get mail. */
  ghost predicate OnlyMail(nd: Node, nd': Node) {
    nd' == nd.(inbox := nd'.inbox) && nd.inbox <= nd'.inbox && (!Present(nd) ==> nd' == nd)
  }

  /** A schedule of u's that lets no time pass. */
  ghost predicate Leads(net: Net, acts: seq<Action>, net': Net, u: nat) {
    && net' == Run(net, acts) && OnlyBy(acts, u)
    && Sane(net') && Grows(net, net') && net'.clock == net.clock
    && forall v :: 0 <= v < |net.nodes| && v != u ==> OnlyMail(net.nodes[v], net'.nodes[v])
  }

  /** Of the other processes nothing has changed at all. */
  ghost predicate Alone(net: Net, net': Net, u: nat) {
    |net'.nodes| == |net.nodes| && forall v :: 0 <= v < |net.nodes| && v != u ==> net'.nodes[v] == net.nodes[v]
  }

  /** Actions that let no time pass. */
  predicate Instant(net: Net, a: Action) {
    a.LoopTop? ==> a.now == net.clock
  }

  lemma LeadsNowhere(net: Net, u: nat)
    requires Sane(net)
    ensures Leads(net, [], net, u)
  {
  }

  lemma LeadsOne(net: Net, a: Action)
    requires Sane(net) && Instant(net, a)
    ensures Leads(net, [a], Step(net, a), a.u)
  {
    RunFirst(net, a, []);
    assert [a] + [] == [a];
    StepKeepsInv(net, a);
    StepGrows(net, a);
    forall v | 0 <= v < |net.nodes| ensures Welcomed(Step(net, a), v) {
      WelcomedStep(net, a, v);
    }
  }

  lemma MailTwice(a: Node, b: Node, c: Node)
    requires OnlyMail(a, b) && OnlyMail(b, c)
    ensures OnlyMail(a, c)
  {
  }

  lemma LeadsOn(net: Net, acts: seq<Action>, mid: Net, more: seq<Action>, net': Net, u: nat)
    requires Leads(net, acts, mid, u) && Leads(mid, more, net', u)
    ensures Leads(net, acts + more, net', u)
  {
    RunAppend(net, acts, more);
    RunGrows(net, acts + more);
    forall v | 0 <= v < |net.nodes| && v != u ensures OnlyMail(net.nodes[v], net'.nodes[v]) {
      MailTwice(net.nodes[v], mid.nodes[v], net'.nodes[v]);
    }
  }

  lemma LeadsThen(net: Net, acts: seq<Action>, mid: Net, a: Action)
    requires Leads(net, acts, mid, a.u) && Instant(mid, a)
    ensures Leads(net, acts + [a], Step(mid, a), a.u)
  {
    LeadsOne(mid, a);
    LeadsOn(net, acts, mid, [a], Step(mid, a), a.u);
  }

  // ---- one process gets on

  /** The process is gone, as far as its own loop is concerned. */
  ghost predicate Gone(net: Net, u: nat)
    requires u < |net.nodes|
  {
    !net.nodes[u].local.running
  }

  /** Through the top of the loop, if the process is not past it yet; it may leave there. */
  lemma ToPoll(net: Net, u: nat) returns (acts: seq<Action>, net': Net)
    requires Sane(net) && u < |net.nodes| && !Gone(net, u)
    ensures Leads(net, acts, net', u) && Alone(net, net', u)
    ensures Gone(net', u) || net'.nodes[u].local == net.nodes[u].local.(polling := true)
    ensures Gone(net', u) ==> Expired(net.nodes[u].cfg, net.clock)
    ensures net'.nodes[u].inbox == net.nodes[u].inbox && net'.nodes[u].live == net.nodes[u].live
    ensures net'.nodes[u].joined == net.nodes[u].joined && net.nodes[u].outbox <= net'.nodes[u].outbox
    ensures !net.nodes[u].departing && !Expired(net.nodes[u].cfg, net.clock) ==> !net'.nodes[u].departing
  {
    if net.nodes[u].local.polling {
      LeadsNowhere(net, u);
      acts, net' := [], net;
    } else {
      LeadsOne(net, LoopTop(u, net.clock));
      acts, net' := [LoopTop(u, net.clock)], Step(net, LoopTop(u, net.clock));
    }
  }

  /** What taking a message does, unless the process leaves. */
  ghost predicate Took(nd: Node, nd': Node)
    requires nd.inbox != []
  {
    && nd'.inbox == nd.inbox[1..] && nd'.live == nd.live && nd'.joined == nd.joined
    && nd.local.proxies <= nd'.local.proxies
    && (nd.inbox[0].command == WELCOME && Connectable(nd.inbox[0].endpoint) ==> nd.inbox[0].endpoint in nd'.local.proxies)
    && (nd.inbox[0] == Hello(nd.cfg) ==> nd.cfg.uuid in nd'.local.peers)
    && (nd.cfg.uuid in nd.local.peers ==> nd.cfg.uuid in nd'.local.peers)
  }

  /** The rest of the turn. */
  lemma ReceiveNow(net: Net, u: nat, net': Net)
    requires Sane(net) && u < |net.nodes| && !Gone(net, u) && net.nodes[u].local.polling && net.nodes[u].inbox != []
    requires net' == Step(net, LoopBottom(u, true))
    ensures Alone(net, net', u) && (Gone(net', u) || Took(net.nodes[u], net'.nodes[u]))
    ensures u in net.nodes[u].local.peers && net.nodes[u].inbox[0] == Bye(net.nodes[u].cfg) ==> Gone(net', u)
    ensures Staying(net, u) ==> Staying(net', u) && !Gone(net', u)
  {
    assert NodeInv(net, u);
    assert net.nodes[u].inbox[0] == Welcome(net) || Genuine(net, net.nodes[u].inbox[0]);
  }

  lemma Receive(net: Net, u: nat) returns (acts: seq<Action>, net': Net)
    requires Sane(net) && u < |net.nodes| && !Gone(net, u) && net.nodes[u].inbox != []
    ensures Leads(net, acts, net', u) && Alone(net, net', u)
    ensures Gone(net', u) || Took(net.nodes[u], net'.nodes[u])
    ensures u in net.nodes[u].local.peers && net.nodes[u].inbox[0] == Bye(net.nodes[u].cfg) ==> Gone(net', u)
    ensures Remaining(net, u) ==> Remaining(net', u)
  {
    var mid;
    acts, mid := ToPoll(net, u);
    assert Older(net.nodes[u], mid.nodes[u]);
    if Gone(mid, u) {
      net' := mid;
    } else {
      LeadsThen(net, acts, mid, LoopBottom(u, true));
      acts, net' := acts + [LoopBottom(u, true)], Step(mid, LoopBottom(u, true));
      ReceiveNow(mid, u, net');
      assert Older(mid.nodes[u], net'.nodes[u]);
    }
  }

  /** Neither left nor due to leave. */
  ghost predicate Remaining(net: Net, u: nat) {
    u < |net.nodes| && !net.nodes[u].departing && !Expired(net.nodes[u].cfg, net.clock) && net.nodes[u].local.running
  }

  lemma {:induction false} TakeWelcome(net: Net, u: nat) returns (acts: seq<Action>, net': Net)
    requires Sane(net) && u < |net.nodes| && !Gone(net, u) && net.nodes[u].joined
    ensures Leads(net, acts, net', u) && (Gone(net', u) || FRONTEND in net'.nodes[u].local.proxies)
    ensures Remaining(net, u) ==> Remaining(net', u)
    decreases |net.nodes[u].inbox|
  {
    if FRONTEND in net.nodes[u].local.proxies {
      LeadsNowhere(net, u);
      acts, net' := [], net;
    } else {
      assert Welcomed(net, u);
      acts, net' := Receive(net, u);
      if !Gone(net', u) {
        var mid, more := net', [];
        more, net' := TakeWelcome(mid, u);
        LeadsOn(net, acts, mid, more, net', u);
        acts := acts + more;
      }
    }
  }

  lemma GoLive(net: Net, u: nat) returns (acts: seq<Action>, net': Net)
    requires Sane(net) && u < |net.nodes| && !Gone(net, u)
    ensures Leads(net, acts, net', u) && (Gone(net', u) || (net'.nodes[u].live && net'.nodes[u].joined))
    ensures Remaining(net, u) ==> Remaining(net', u)
  {
    LeadsOne(net, Join(u));
    var net1 := Step(net, Join(u));
    var more, net2 := TakeWelcome(net1, u);
    LeadsOn(net, [Join(u)], net1, more, net2, u);
    acts, net' := [Join(u)] + more, net2;
    if !Gone(net2, u) {
      assert NodeInv(net2, u);
      LeadsThen(net, acts, net2, LinkUp(u));
      acts, net' := acts + [LinkUp(u)], Step(net2, LinkUp(u));
    }
  }

  /** A turn without a message announces a process that is not connected to itself. */
  lemma Announce(net: Net, u: nat) returns (acts: seq<Action>, net': Net)
    requires Sane(net) && u < |net.nodes| && !Gone(net, u) && net.nodes[u].live && u !in net.nodes[u].local.peers
    ensures Leads(net, acts, net', u)
    ensures Gone(net', u) || (net'.nodes[u].live && net'.nodes[u].local == net.nodes[u].local.(polling := false)
                              && net'.nodes[u].outbox != [] && net'.nodes[u].outbox[|net'.nodes[u].outbox| - 1] == Hello(net.nodes[u].cfg))
    ensures Remaining(net, u) ==> Remaining(net', u)
  {
    var mid;
    acts, mid := ToPoll(net, u);
    assert NodeInv(net, u) && NodeInv(mid, u);
    if Gone(mid, u) {
      net' := mid;
    } else {
      LeadsThen(net, acts, mid, LoopBottom(u, false));
      acts, net' := acts + [LoopBottom(u, false)], Step(mid, LoopBottom(u, false));
    }
  }

  /** The proxy forwards all that u has said. */
  lemma {:induction false} Flush(net: Net, u: nat) returns (acts: seq<Action>, net': Net)
    requires Sane(net) && u < |net.nodes|
    ensures Leads(net, acts, net', u) && net'.nodes[u].outbox == []
    ensures net'.nodes[u] == net.nodes[u].(outbox := [], inbox := net'.nodes[u].inbox)
    ensures net'.nodes[u].inbox == net.nodes[u].inbox + if Present(net.nodes[u]) then net.nodes[u].outbox else []
    decreases |net.nodes[u].outbox|
  {
    var nd := net.nodes[u];
    if nd.outbox == [] {
      LeadsNowhere(net, u);
      acts, net' := [], net;
    } else {
      assert nd.outbox == [nd.outbox[0]] + nd.outbox[1..];
      LeadsOne(net, Relay(u));
      var mid, more := Step(net, Relay(u)), [];
      more, net' := Flush(mid, u);
      LeadsOn(net, [Relay(u)], mid, more, net', u);
      acts := [Relay(u)] + more;
    }
  }

  // ---- getting connected to oneself

  /** u takes its mail up to its own announcement. */
  lemma {:induction false} TakeOwnHello(net: Net, u: nat) returns (acts: seq<Action>, net': Net)
    requires Sane(net) && u < |net.nodes| && !Gone(net, u) && Heard(net, u, u)
    ensures Leads(net, acts, net', u) && (Gone(net', u) || u in net'.nodes[u].local.peers)
    ensures Remaining(net, u) ==> Remaining(net', u)
    decreases |net.nodes[u].inbox|
  {
    var nd := net.nodes[u];
    if u in nd.local.peers {
      LeadsNowhere(net, u);
      acts, net' := [], net;
    } else {
      assert nd.inbox == [nd.inbox[0]] + nd.inbox[1..];
      assert NodeInv(net, u);
      acts, net' := Receive(net, u);
      if !Gone(net', u) {
        assert Older(nd, net'.nodes[u]);
        var mid, more := net', [];
        more, net' := TakeOwnHello(mid, u);
        LeadsOn(net, acts, mid, more, net', u);
        acts := acts + more;
      }
    }
  }

  /** A process that is still running can be brought to be connected to itself -- or, if
      its time has come, it may leave on the way. */
  lemma ConnectSelf(net: Net, u: nat) returns (acts: seq<Action>, net': Net)
    requires Sane(net) && u < |net.nodes| && !Gone(net, u)
    ensures Leads(net, acts, net', u) && (Gone(net', u) || (u in net'.nodes[u].local.peers && net'.nodes[u].live && net'.nodes[u].joined))
    ensures Remaining(net, u) ==> Remaining(net', u)
  {
    acts, net' := GoLive(net, u);
    if !Gone(net', u) && u !in net'.nodes[u].local.peers {
      var net1, more := net', [];
      more, net' := Announce(net1, u);
      LeadsOn(net, acts, net1, more, net', u);
      acts := acts + more;
      if !Gone(net', u) {
        var net2 := net';
        assert NodeInv(net2, u);
        more, net' := Flush(net2, u);
        assert Hello(net2.nodes[u].cfg) in net'.nodes[u].inbox;
        assert Older(net2.nodes[u], net'.nodes[u]);
        LeadsOn(net, acts, net2, more, net', u);
        acts := acts + more;
        var net3 := net';
        more, net' := TakeOwnHello(net3, u);
        assert Older(net3.nodes[u], net'.nodes[u]);
        LeadsOn(net, acts, net3, more, net', u);
        acts := acts + more;
      }
    }
  }

  // ---- leaving

  /** u takes its mail up to its own D. */
  lemma {:induction false} TakeOwnBye(net: Net, u: nat) returns (acts: seq<Action>, net': Net)
    requires Sane(net) && u < |net.nodes| && !Gone(net, u) && u in net.nodes[u].local.peers
    requires Bye(net.nodes[u].cfg) in net.nodes[u].inbox
    ensures Leads(net, acts, net', u) && Gone(net', u)
    decreases |net.nodes[u].inbox|
  {
    var nd := net.nodes[u];
    assert NodeInv(net, u);
    assert nd.inbox == [nd.inbox[0]] + nd.inbox[1..];
    acts, net' := Receive(net, u);
    if !Gone(net', u) {
      assert Older(nd, net'.nodes[u]);
      var mid, more := net', [];
      more, net' := TakeOwnBye(mid, u);
      LeadsOn(net, acts, mid, more, net', u);
      acts := acts + more;
    }
  }

  /** To the top of the loop, without taking a message. */
  lemma ToTop(net: Net, u: nat) returns (acts: seq<Action>, net': Net)
    requires Sane(net) && u < |net.nodes| && !Gone(net, u) && net.nodes[u].live && u in net.nodes[u].local.peers
    ensures Leads(net, acts, net', u)
    ensures net'.nodes[u].local == net.nodes[u].local.(polling := false) && net'.nodes[u].live
  {
    LeadsNowhere(net, u);
    acts, net' := [], net;
    assert NodeInv(net, u);
    if net.nodes[u].local.polling {
      LeadsOne(net, LoopBottom(u, false));
      acts, net' := [LoopBottom(u, false)], Step(net, LoopBottom(u, false));
    }
  }

  /** The top of a turn of a process that is due: it says D, and may be gone. */
  lemma SayBye(net: Net, u: nat) returns (acts: seq<Action>, net': Net)
    requires Sane(net) && u < |net.nodes| && !Gone(net, u) && Expired(net.nodes[u].cfg, net.clock)
    requires net.nodes[u].live && u in net.nodes[u].local.peers
    ensures Leads(net, acts, net', u)
    ensures Gone(net', u) || (u in net'.nodes[u].local.peers && net'.nodes[u].joined && Bye(net'.nodes[u].cfg) in net'.nodes[u].outbox)
  {
    var mid;
    acts, mid := ToTop(net, u);
    assert Older(net.nodes[u], mid.nodes[u]) && NodeInv(mid, u);
    LeadsThen(net, acts, mid, LoopTop(u, mid.clock));
    acts, net' := acts + [LoopTop(u, mid.clock)], Step(mid, LoopTop(u, mid.clock));
    var outbox := net'.nodes[u].outbox;
    assert outbox[|outbox| - 1] == Bye(net'.nodes[u].cfg);
  }

  /** A process whose time has come can be brought to leave. */
  lemma Leave(net: Net, u: nat) returns (acts: seq<Action>, net': Net)
    requires Sane(net) && u < |net.nodes| && !Gone(net, u) && Expired(net.nodes[u].cfg, net.clock)
    ensures Leads(net, acts, net', u) && Gone(net', u)
  {
    acts, net' := ConnectSelf(net, u);
    if !Gone(net', u) {
      var net1, more := net', [];
      assert Older(net.nodes[u], net1.nodes[u]);
      more, net' := SayBye(net1, u);
      LeadsOn(net, acts, net1, more, net', u);
      acts := acts + more;
      if !Gone(net', u) {
        var net2 := net';
        more, net' := Flush(net2, u);
        assert Older(net2.nodes[u], net'.nodes[u]);
        LeadsOn(net, acts, net2, more, net', u);
        acts := acts + more;
        var net3 := net';
        more, net' := TakeOwnBye(net3, u);
        LeadsOn(net, acts, net3, more, net', u);
        acts := acts + more;
      }
    }
  }

  // ---- everybody

  /** Some continuation in which no time passes. */
  ghost predicate Continues(net: Net, acts: seq<Action>, net': Net) {
    net' == Run(net, acts) && Sane(net') && Grows(net, net') && net'.clock == net.clock
  }

  lemma ContinuesOn(net: Net, acts: seq<Action>, mid: Net, more: seq<Action>, net': Net)
    requires Continues(net, acts, mid) && Continues(mid, more, net')
    ensures Continues(net, acts + more, net')
  {
    RunAppend(net, acts, more);
    RunGrows(net, acts + more);
  }

  /** A member that stays. */
  ghost predicate Stays(net: Net, u: nat) {
    Remaining(net, u) && Present(net.nodes[u])
  }

  /** Whoever stayed stays, and nobody else does. */
  ghost predicate SameStay(net: Net, net': Net) {
    |net'.nodes| == |net.nodes| && forall u :: 0 <= u < |net.nodes| ==> (Stays(net, u) <==> Stays(net', u))
  }

  /** Whoever's time has come has left, and what the departed said is delivered. */
  ghost predicate Cleared(net: Net, u: nat)
    requires u < |net.nodes|
  {
    if Present(net.nodes[u]) then Remaining(net, u) else net.nodes[u].outbox == []
  }

  lemma ClearOne(net: Net, u: nat) returns (acts: seq<Action>, net': Net)
    requires Sane(net) && u < |net.nodes|
    ensures Leads(net, acts, net', u) && Cleared(net', u) && (Stays(net, u) <==> Stays(net', u))
  {
    LeadsNowhere(net, u);
    acts, net' := [], net;
    assert NodeInv(net, u);
    if !Stays(net, u) {
      if Present(net.nodes[u]) {
        acts, net' := Leave(net, u);
      }
      var mid, more := net', [];
      more, net' := Flush(mid, u);
      LeadsOn(net, acts, mid, more, net', u);
      acts := acts + more;
    }
  }

  /** What u does changes nobody else's standing. */
  lemma OthersStand(net: Net, acts: seq<Action>, net': Net, u: nat)
    requires Leads(net, acts, net', u) && u < |net.nodes| && (Stays(net, u) <==> Stays(net', u))
    ensures SameStay(net, net')
    ensures forall v :: 0 <= v < |net.nodes| && v != u && Cleared(net, v) ==> Cleared(net', v)
  {
    forall v | 0 <= v < |net.nodes| && v != u
      ensures (Stays(net, v) <==> Stays(net', v)) && (Cleared(net, v) ==> Cleared(net', v))
    {
      assert OnlyMail(net.nodes[v], net'.nodes[v]);
    }
  }

  lemma {:induction false} ClearAll(net: Net, k: nat) returns (acts: seq<Action>, net': Net)
    requires Sane(net) && k <= |net.nodes|
    ensures Continues(net, acts, net') && SameStay(net, net') && forall u :: 0 <= u < k ==> Cleared(net', u)
  {
    if k == 0 {
      acts, net' := [], net;
    } else {
      var mid, more;
      acts, mid := ClearAll(net, k - 1);
      more, net' := ClearOne(mid, k - 1);
      OthersStand(mid, more, net', k - 1);
      ContinuesOn(net, acts, mid, more, net');
      acts := acts + more;
    }
  }

  ghost predicate AllCleared(net: Net) {
    forall u :: 0 <= u < |net.nodes| ==> Cleared(net, u)
  }

  /** Of the members that stay, the first k are connected to themselves. */
  ghost predicate SelvesKnown(net: Net, k: nat) {
    forall u :: 0 <= u < k && Stays(net, u) ==> u in net.nodes[u].local.peers
  }

  lemma {:induction false} ConnectSelves(net: Net, k: nat) returns (acts: seq<Action>, net': Net)
    requires Sane(net) && k <= |net.nodes| && AllCleared(net)
    ensures Continues(net, acts, net') && SameStay(net, net') && AllCleared(net') && SelvesKnown(net', k)
  {
    if k == 0 {
      acts, net' := [], net;
    } else {
      var mid, more;
      acts, mid := ConnectSelves(net, k - 1);
      if Stays(mid, k - 1) {
        more, net' := ConnectSelf(mid, k - 1);
        assert Older(mid.nodes[k - 1], net'.nodes[k - 1]);
        OthersStand(mid, more, net', k - 1);
        SelvesStay(mid, more, net', k - 1);
        ContinuesOn(net, acts, mid, more, net');
        acts := acts + more;
      } else {
        net' := mid;
      }
    }
  }

  lemma SelvesStay(net: Net, acts: seq<Action>, net': Net, u: nat)
    requires Leads(net, acts, net', u) && u < |net.nodes| && SameStay(net, net') && SelvesKnown(net, u)
    ensures SelvesKnown(net', u)
  {
    forall v | 0 <= v < u && Stays(net', v) ensures v in net'.nodes[v].local.peers {
      assert OnlyMail(net.nodes[v], net'.nodes[v]) && Stays(net, v);
    }
  }

  /** u takes all its mail. */
  lemma {:induction false} TakeAll(net: Net, u: nat) returns (acts: seq<Action>, net': Net)
    requires Sane(net) && u < |net.nodes| && Stays(net, u) && u in net.nodes[u].local.peers
    ensures Leads(net, acts, net', u) && Alone(net, net', u) && Stays(net', u)
    ensures u in net'.nodes[u].local.peers && net'.nodes[u].inbox == []
    decreases |net.nodes[u].inbox|
  {
    if net.nodes[u].inbox == [] {
      LeadsNowhere(net, u);
      acts, net' := [], net;
    } else {
      assert NodeInv(net, u);
      var mid, more;
      acts, mid := Receive(net, u);
      assert Older(net.nodes[u], mid.nodes[u]);
      more, net' := TakeAll(mid, u);
      LeadsOn(net, acts, mid, more, net', u);
      acts := acts + more;
    }
  }

  ghost predicate Emptied(net: Net, k: nat) {
    forall u :: 0 <= u < k && u < |net.nodes| && Stays(net, u) ==> net.nodes[u].inbox == []
  }

  lemma {:induction false} EmptyAll(net: Net, k: nat) returns (acts: seq<Action>, net': Net)
    requires Sane(net) && k <= |net.nodes| && AllCleared(net) && SelvesKnown(net, |net.nodes|)
    ensures Continues(net, acts, net') && SameStay(net, net') && AllCleared(net')
    ensures SelvesKnown(net', |net.nodes|) && Emptied(net', k)
  {
    if k == 0 {
      acts, net' := [], net;
    } else {
      var mid, more;
      acts, mid := EmptyAll(net, k - 1);
      if Stays(mid, k - 1) {
        more, net' := TakeAll(mid, k - 1);
        OthersStand(mid, more, net', k - 1);
        AloneStays(mid, net', k - 1);
        ContinuesOn(net, acts, mid, more, net');
        acts := acts + more;
      } else {
        net' := mid;
      }
    }
  }

  lemma AloneStays(net: Net, net': Net, u: nat)
    requires Alone(net, net', u) && u < |net.nodes| && SameStay(net, net') && SelvesKnown(net, |net.nodes|) && Emptied(net, u)
    requires u in net'.nodes[u].local.peers && net'.nodes[u].inbox == []
    ensures SelvesKnown(net', |net.nodes|) && Emptied(net', u + 1)
  {
    forall v | 0 <= v < |net.nodes| && v != u && Stays(net', v)
      ensures v in net'.nodes[v].local.peers && (v < u ==> net'.nodes[v].inbox == [])
    {
      assert net'.nodes[v] == net.nodes[v] && Stays(net, v);
    }
  }

  /** Those who are members, not on their way out and not due. */
  ghost function Permanent(net: Net): set<Uuid> {
    set u | 0 <= u < |net.nodes| && Stays(net, u)
  }

  /** What everybody has found out when discovery is complete. */
  ghost predicate Complete(net: Net, members: set<Uuid>) {
    Quiet(net) && Members(net) == members
    && forall u :: u in members ==> u < |net.nodes| && net.nodes[u].local.peers.Keys == members
  }

  lemma Tidied(cs: seq<Config>, acts: seq<Action>, net: Net) returns (more: seq<Action>)
    requires Configured(cs) && net == Run(Start(cs), acts) && Sane(net) && AllCleared(net)
    requires SelvesKnown(net, |net.nodes|) && Emptied(net, |net.nodes|)
    ensures Complete(Run(net, more), Permanent(net))
  {
    forall u | 0 <= u < |net.nodes| ensures OrphanlessNode(net, u) && (Present(net.nodes[u]) ==> !Expired(net.nodes[u].cfg, net.clock)) {
      assert Cleared(net, u);
    }
    SettledWhenAllIn(cs, acts);
    more := Completes(net);
    forall v | v in Members(net) ensures Members(Run(net, more)) == Members(net) && Run(net, more).nodes[v].local.peers.Keys == Members(net) {
      DiscoverySucceeds(cs, acts, more, v);
    }
    RunSettled(net, more);
    assert Members(net) == Permanent(net);
    assert Members(Run(net, more)) == Members(net);
  }

  /** From every reachable state whatsoever some continuation has everybody leave who has
      said D or is due to, and ends with all queues empty and the map of every member
      that stays holding exactly the members that stay. */
  lemma CanAlwaysSettle(cs: seq<Config>, acts: seq<Action>, net: Net) returns (more: seq<Action>)
    requires Configured(cs) && net == Run(Start(cs), acts)
    ensures Complete(Run(net, more), Permanent(net))
  {
    SaneReachable(cs, acts);
    var a1, n1 := ClearAll(net, |net.nodes|);
    var a2, n2 := ConnectSelves(n1, |net.nodes|);
    var a3, n3 := EmptyAll(n2, |net.nodes|);
    ContinuesOn(net, a1, n1, a2, n2);
    ContinuesOn(net, a1 + a2, n2, a3, n3);
    RunAppend(Start(cs), acts, a1 + a2 + a3);
    var a4 := Tidied(cs, acts + (a1 + a2 + a3), n3);
    more := a1 + a2 + a3 + a4;
    RunAppend(net, a1 + a2 + a3, a4);
    assert Permanent(n3) == Permanent(net);
  }

  /** Everyone that is running joins. */
  lemma {:induction false} JoinAll(net: Net, k: nat) returns (acts: seq<Action>, net': Net)
    requires Sane(net) && k <= |net.nodes|
    ensures Continues(net, acts, net')
    ensures forall u :: 0 <= u < |net.nodes| && Remaining(net, u) ==> Remaining(net', u) && (u < k ==> Present(net'.nodes[u]))
  {
    if k == 0 {
      acts, net' := [], net;
    } else {
      var mid;
      acts, mid := JoinAll(net, k - 1);
      LeadsOne(mid, Join(k - 1));
      net' := Step(mid, Join(k - 1));
      ContinuesOn(net, acts, mid, [Join(k - 1)], net');
      acts := acts + [Join(k - 1)];
    }
  }

  /** In particular, while nobody has left or is due to, some continuation ends with the
      map of every process holding exactly all the processes. */
  lemma CanAlwaysConverge(cs: seq<Config>, acts: seq<Action>, net: Net) returns (more: seq<Action>)
    requires Configured(cs) && net == Run(Start(cs), acts)
    requires forall u :: 0 <= u < |net.nodes| ==> Staying(net, u) && !Expired(net.nodes[u].cfg, net.clock)
    ensures var end := Run(net, more);
            |end.nodes| == |cs| && Complete(end, Members(end)) && forall u :: 0 <= u < |cs| ==> u in Members(end)
  {
    SaneReachable(cs, acts);
    forall u | 0 <= u < |net.nodes| ensures Remaining(net, u) {
      assert NodeInv(net, u) && Staying(net, u);
    }
    var a1, n1 := JoinAll(net, |net.nodes|);
    RunAppend(Start(cs), acts, a1);
    var a2 := CanAlwaysSettle(cs, acts + a1, n1);
    more := a1 + a2;
    RunAppend(net, a1, a2);
    var end := Run(n1, a2);
    assert Members(end) == Permanent(n1);
    RunGrows(n1, a2);
    forall u | 0 <= u < |cs| ensures u in Members(end) {
      assert u in Permanent(n1);
    }
  }
}
