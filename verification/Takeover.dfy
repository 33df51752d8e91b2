/** A run in which a process starts on the port of one that has left, while what that one
    said last is still on its way. */
module Takeover {
  import opened Wrappers
  import opened Peer
  import opened Discovery
  import opened Gossip
  import opened Bootstrap

  // ---- the schedules

  function Linking(u: nat, now: int): seq<Action> {
    [Join(u), LoopTop(u, now), LoopBottom(u, true), LinkUp(u)]
  }

  /** It announces itself, and says D as soon as its time has come. */
  function Parting(u: nat, late: int): seq<Action> {
    [LoopTop(u, 0), LoopBottom(u, false), LoopTop(u, late)]
  }

  /** Unless it leaves at once, it hears itself come and go, saying both again. */
  function Lingering(u: nat, late: int): seq<Action> {
    [LoopBottom(u, false), LoopTop(u, late), Relay(u), Relay(u), LoopBottom(u, true), LoopTop(u, late), LoopBottom(u, true)]
  }

  /** w's next message reaches v, which takes it. */
  function Hearing(w: nat, v: nat, now: int): seq<Action> {
    [Relay(w), LoopTop(v, now), LoopBottom(v, true)]
  }

  lemma RunThree(net: Net, a: Action, b: Action, c: Action)
    ensures Run(net, [a, b, c]) == Step(Step(Step(net, a), b), c)
  {
    assert [a, b, c][..2] == [a, b] && [a, b][..1] == [a] && [a][..0] == [];
    assert Run(net, [a]) == Step(net, a);
  }

  lemma RunFour(net: Net, a: Action, b: Action, c: Action, d: Action)
    ensures Run(net, [a, b, c, d]) == Step(Step(Step(Step(net, a), b), c), d)
  {
    assert [a, b, c, d][..3] == [a, b, c];
    RunThree(net, a, b, c);
  }

  // ---- their effects

  function Fresh(c: Config): Node {
    Node(c, BEGIN, false, false, [], [], false)
  }

  /** A process with its link up, at the top of its loop. */
  function Linked(c: Config, peers: map<Uuid, Endpoint>, connected: set<Endpoint>, inbox: seq<ConnectMsg>, outbox: seq<ConnectMsg>): Node {
    Node(c, Local(peers, connected, {FRONTEND}, false, true), true, true, inbox, outbox, false)
  }

  lemma LinkingLinks(net: Net, u: nat, now: int, c: Config)
    requires u < |net.nodes| && net.nodes[u] == Fresh(c) && now >= net.clock && !Expired(c, now)
    ensures var net' := Run(net, Linking(u, now));
            net'.clock == now && net'.nodes == net.nodes[u := Linked(c, map[], {}, [], [])]
  {
    RunFour(net, Join(u), LoopTop(u, now), LoopBottom(u, true), LinkUp(u));
    var n1 := Step(net, Join(u));
    var n2 := Step(n1, LoopTop(u, now));
    assert n2.nodes[u] == Node(c, BEGIN.(polling := true), true, false, [Welcome(net)], [], false);
    var n3 := Step(n2, LoopBottom(u, true));
    assert {} + {FRONTEND} == {FRONTEND};
    assert n3.nodes[u] == Linked(c, map[], {}, [], []).(live := false);
    assert n3.nodes == net.nodes[u := n3.nodes[u]];
  }

  /** Past its first D: gone, or in the middle of a turn. */
  function Parted(c: Config, outbox: seq<ConnectMsg>): Node {
    Node(c, Local(map[], {}, {FRONTEND}, !c.immediateExit, !c.immediateExit), true, true, [], outbox, true)
  }

  lemma PartingParts(net: Net, u: nat, late: int, c: Config)
    requires u < |net.nodes| && net.nodes[u] == Linked(c, map[], {}, [], []) && net.clock == 0 && c.uuid == u
    requires 0 < c.endTime < late
    ensures var net' := Run(net, Parting(u, late));
            net'.clock == late && net'.nodes == net.nodes[u := Parted(c, [Hello(c), Bye(c)])]
  {
    RunThree(net, LoopTop(u, 0), LoopBottom(u, false), LoopTop(u, late));
    var n1 := Step(net, LoopTop(u, 0));
    var n2 := Step(n1, LoopBottom(u, false));
    assert n2.nodes[u] == Linked(c, map[], {}, [], [Hello(c)]);
    assert [Hello(c)] + [Bye(c)] == [Hello(c), Bye(c)];
  }

  /** The lingering, in four parts: it says C and D again ... */
  lemma SaysAgain(net: Net, u: nat, late: int, c: Config, net': Net)
    requires u < |net.nodes| && net.nodes[u] == Parted(c, [Hello(c), Bye(c)]) && net.clock == late && c.uuid == u
    requires 0 < c.endTime < late && !c.immediateExit
    requires net' == Step(Step(net, LoopBottom(u, false)), LoopTop(u, late))
    ensures net'.clock == late && net'.nodes == net.nodes[u := Parted(c, [Hello(c), Bye(c), Hello(c), Bye(c)])]
  {
    var h, b := Hello(c), Bye(c);
    var n1 := Step(net, LoopBottom(u, false));
    assert [h, b] + [h] == [h, b, h] && [h, b, h] + [b] == [h, b, h, b];
    assert n1.nodes[u] == Parted(c, [h, b, h]).(local := Local(map[], {}, {FRONTEND}, false, true));
  }

  /** ... the first two are relayed to it ... */
  lemma FirstTwoCome(net: Net, u: nat, c: Config, net': Net)
    requires u < |net.nodes| && net.nodes[u] == Parted(c, [Hello(c), Bye(c), Hello(c), Bye(c)]) && !c.immediateExit
    requires net' == Step(Step(net, Relay(u)), Relay(u))
    ensures net'.clock == net.clock && |net'.nodes| == |net.nodes|
    ensures net'.nodes[u] == Parted(c, [Hello(c), Bye(c)]).(inbox := [Hello(c), Bye(c)])
    ensures forall w :: 0 <= w < |net.nodes| && w != u && !net.nodes[w].joined ==> net'.nodes[w] == net.nodes[w]
  {
    var h, b := Hello(c), Bye(c);
    var n1 := Step(net, Relay(u));
    assert n1.nodes[u] == Parted(c, [b, h, b]).(inbox := [h]);
    assert [h] + [b] == [h, b];
  }

  /** ... it takes its C, saying both again ... */
  lemma TakesItsHello(net: Net, u: nat, late: int, c: Config, net': Net)
    requires u < |net.nodes| && net.nodes[u] == Parted(c, [Hello(c), Bye(c)]).(inbox := [Hello(c), Bye(c)])
    requires net.clock == late && c.uuid == u && 0 < c.endTime < late && !c.immediateExit
    requires net' == Step(Step(net, LoopBottom(u, true)), LoopTop(u, late))
    ensures net'.clock == late && net'.nodes == net.nodes[u := net'.nodes[u]]
    ensures var nd := net'.nodes[u];
            && nd.local.running && nd.local.polling && u in nd.local.peers && nd.cfg == c && nd.live
            && nd.inbox == [Bye(c)] && nd.outbox == [Hello(c), Bye(c), Hello(c), Bye(c)]
  {
    var h, b := Hello(c), Bye(c);
    var n1 := Step(net, LoopBottom(u, true));
    assert [h, b] + ([h] + []) == [h, b, h] && [h, b, h] + [b] == [h, b, h, b];
    assert n1.nodes[u].outbox == [h, b, h] && n1.nodes[u].inbox == [b];
  }

  /** ... and its D, and is gone. */
  lemma TakesItsBye(net: Net, u: nat, c: Config, outbox: seq<ConnectMsg>, net': Net)
    requires u < |net.nodes| && c.uuid == u && net' == Step(net, LoopBottom(u, true))
    requires var nd := net.nodes[u];
             && nd.local.running && nd.local.polling && u in nd.local.peers && nd.cfg == c
             && nd.inbox == [Bye(c)] && nd.outbox == outbox
    ensures net'.clock == net.clock && net'.nodes == net.nodes[u := net'.nodes[u]]
    ensures !net'.nodes[u].local.running && net'.nodes[u].outbox == outbox
  {
    assert outbox + ([] + []) == outbox;
  }

  lemma LingeringRun(net: Net, u: nat, late: int, n1: Net, n2: Net, n3: Net)
    requires n1 == Step(Step(net, LoopBottom(u, false)), LoopTop(u, late)) && n2 == Step(Step(n1, Relay(u)), Relay(u))
    requires n3 == Step(Step(n2, LoopBottom(u, true)), LoopTop(u, late))
    ensures Run(net, Lingering(u, late)) == Step(n3, LoopBottom(u, true))
  {
    var first, second := [LoopBottom(u, false), LoopTop(u, late), Relay(u), Relay(u)], [LoopBottom(u, true), LoopTop(u, late), LoopBottom(u, true)];
    assert Lingering(u, late) == first + second;
    RunAppend(net, first, second);
    RunFour(net, LoopBottom(u, false), LoopTop(u, late), Relay(u), Relay(u));
    RunThree(Run(net, first), LoopBottom(u, true), LoopTop(u, late), LoopBottom(u, true));
  }

  /** What a process says again before it leaves, unless it leaves at once. */
  function SaidAgain(c: Config): seq<ConnectMsg> {
    if c.immediateExit then [] else [Hello(c), Bye(c)]
  }

  function Leaving(c: Config, late: int): seq<Action> {
    if c.immediateExit then [] else Lingering(c.uuid, late)
  }

  /** u, just past its first D, can be gone with a C and a D of it undelivered. */
  lemma Lingers(net: Net, u: nat, late: int, c: Config)
    requires u < |net.nodes| && net.nodes[u] == Parted(c, [Hello(c), Bye(c)]) && net.clock == late && c.uuid == u
    requires 0 < c.endTime < late
    ensures var net' := Run(net, Leaving(c, late));
            && |net'.nodes| == |net.nodes| && net'.clock == late
            && Gone(net', u) && net'.nodes[u].outbox == [Hello(c), Bye(c)] + SaidAgain(c)
            && forall w :: 0 <= w < |net.nodes| && w != u && !net.nodes[w].joined ==> net'.nodes[w] == net.nodes[w]
  {
    if c.immediateExit {
      assert [Hello(c), Bye(c)] + [] == [Hello(c), Bye(c)];
    } else {
      LingersOn(net, u, late, c);
      assert [Hello(c), Bye(c)] + [Hello(c), Bye(c)] == [Hello(c), Bye(c), Hello(c), Bye(c)];
    }
  }

  lemma LingersOn(net: Net, u: nat, late: int, c: Config)
    requires u < |net.nodes| && net.nodes[u] == Parted(c, [Hello(c), Bye(c)]) && net.clock == late && c.uuid == u
    requires 0 < c.endTime < late && !c.immediateExit
    ensures var net' := Run(net, Lingering(u, late));
            && |net'.nodes| == |net.nodes| && net'.clock == late
            && !net'.nodes[u].local.running && net'.nodes[u].outbox == [Hello(c), Bye(c), Hello(c), Bye(c)]
            && forall w :: 0 <= w < |net.nodes| && w != u && !net.nodes[w].joined ==> net'.nodes[w] == net.nodes[w]
  {
    var n1 := Step(Step(net, LoopBottom(u, false)), LoopTop(u, late));
    var n2 := Step(Step(n1, Relay(u)), Relay(u));
    var n3 := Step(Step(n2, LoopBottom(u, true)), LoopTop(u, late));
    SaysAgain(net, u, late, c, n1);
    FirstTwoCome(n1, u, c, n2);
    TakesItsHello(n2, u, late, c, n3);
    TakesItsBye(n3, u, c, [Hello(c), Bye(c), Hello(c), Bye(c)], Step(n3, LoopBottom(u, true)));
    LingeringRun(net, u, late, n1, n2, n3);
  }

  lemma StartsFresh(cs: seq<Config>, w: nat)
    requires w < |cs|
    ensures |Start(cs).nodes| == |cs| && Start(cs).nodes[w] == Fresh(cs[w]) && Start(cs).clock == 0
  {
  }

  /** The beginning of u's life, from the start of the run to its first D. */
  lemma Parts(cs: seq<Config>, u: nat, c: Config, late: int, acts: seq<Action>, net: Net)
    requires Configured(cs) && u < |cs| && c == cs[u] && 0 < c.endTime < late
    requires acts == Linking(u, 0) + Parting(u, late) && net == Run(Start(cs), acts)
    ensures net.clock == late && net.nodes == Start(cs).nodes[u := Parted(c, [Hello(c), Bye(c)])]
  {
    StartsFresh(cs, u);
    LinkingLinks(Start(cs), u, 0, c);
    PartingParts(Run(Start(cs), Linking(u, 0)), u, late, c);
    RunAppend(Start(cs), Linking(u, 0), Parting(u, late));
  }

  /** u's whole life. */
  function Lifetime(c: Config): seq<Action> {
    Linking(c.uuid, 0) + Parting(c.uuid, c.endTime + 1) + Leaving(c, c.endTime + 1)
  }

  /** It ends with a C and a D of u undelivered. */
  lemma Life(cs: seq<Config>, u: nat)
    requires Configured(cs) && u < |cs| && cs[u].endTime > 0
    ensures OnlyBy(Lifetime(cs[u]), u)
    ensures var net := Run(Start(cs), Lifetime(cs[u]));
            && |net.nodes| == |cs| && net.clock == cs[u].endTime + 1
            && Gone(net, u) && net.nodes[u].outbox == [Hello(cs[u]), Bye(cs[u])] + SaidAgain(cs[u])
            && forall w :: 0 <= w < |cs| && w != u ==> net.nodes[w] == Fresh(cs[w])
  {
    var c, late := cs[u], cs[u].endTime + 1;
    var first := Linking(u, 0) + Parting(u, late);
    var net1 := Run(Start(cs), first);
    Parts(cs, u, c, late, first, net1);
    forall w | 0 <= w < |cs| && w != u ensures net1.nodes[w] == Fresh(cs[w]) {
      StartsFresh(cs, w);
    }
    Lingers(net1, u, late, c);
    RunAppend(Start(cs), first, Leaving(c, late));
  }

  /** v hears what w said first, with nothing else to read; neither is w's sender gone nor
      present of any matter. */
  lemma HearingTurn(net: Net, w: nat, v: nat, m: ConnectMsg, rest: seq<ConnectMsg>, nd: Node)
    requires w < |net.nodes| && v < |net.nodes| && net.nodes[w].outbox == [m] + rest
    requires nd == Linked(nd.cfg, nd.local.peers, nd.local.connected, [], if w == v then rest else nd.outbox)
    requires net.nodes[v] == if w == v then nd.(outbox := [m] + rest) else nd
    requires !Expired(nd.cfg, net.clock)
    ensures var net' := Run(net, Hearing(w, v, net.clock));
            var (l, out) := Bottom(nd.cfg, nd.local, Some(m));
            && net'.clock == net.clock && |net'.nodes| == |net.nodes|
            && net'.nodes[v] == nd.(local := l, outbox := nd.outbox + out)
            && forall x :: 0 <= x < |net.nodes| && x != v && !Present(net.nodes[x]) ==>
                 net'.nodes[x] == if x == w then net.nodes[x].(outbox := rest) else net.nodes[x]
  {
    RunThree(net, Relay(w), LoopTop(v, net.clock), LoopBottom(v, true));
    var n1 := Step(net, Relay(w));
    assert n1.nodes[v] == nd.(inbox := [m]);
    var n2 := Step(n1, LoopTop(v, net.clock));
    assert nd.outbox + [] == nd.outbox;
    assert n2.nodes[v] == nd.(inbox := [m], local := nd.local.(polling := true));
  }

  /** v's life so far: it takes u for present, then itself, then u's D. */
  function Succeeding(u: nat, v: nat, now: int): seq<Action> {
    Linking(v, now) + Hearing(u, v, now) + Hearing(v, v, now) + Hearing(u, v, now)
  }

  lemma SucceedingRun(net: Net, u: nat, v: nat, now: int)
    ensures Run(net, Succeeding(u, v, now))
         == Run(Run(Run(Run(net, Linking(v, now)), Hearing(u, v, now)), Hearing(v, v, now)), Hearing(u, v, now))
  {
    var a, b, c := Linking(v, now), Hearing(u, v, now), Hearing(v, v, now);
    RunAppend(net, a, b);
    RunAppend(net, a + b, c);
    RunAppend(net, a + b + c, b);
  }

  /** What u left behind. */
  ghost predicate LeftBehind(net: Net, u: nat, msgs: seq<ConnectMsg>) {
    u < |net.nodes| && !Present(net.nodes[u]) && net.nodes[u].outbox == msgs
  }

  /** v hears u come ... */
  lemma HearsHello(net: Net, u: nat, v: nat, c: Config, d: Config, rest: seq<ConnectMsg>, net': Net)
    requires u != v && v < |net.nodes| && c.uuid == u && d.uuid == v && Connectable(c.endpoint)
    requires LeftBehind(net, u, [Hello(c)] + rest) && net.nodes[v] == Linked(d, map[], {}, [], []) && !Expired(d, net.clock)
    requires net' == Run(net, Hearing(u, v, net.clock))
    ensures net'.clock == net.clock && |net'.nodes| == |net.nodes| && LeftBehind(net', u, rest)
    ensures net'.nodes[v] == Linked(d, map[u := c.endpoint], {c.endpoint}, [], [Hello(d), Hello(d)])
  {
    HearingTurn(net, u, v, Hello(c), rest, net.nodes[v]);
    assert [] + ([Hello(d)] + [Hello(d)]) == [Hello(d), Hello(d)];
    assert map[][u := c.endpoint] == map[u := c.endpoint] && {} + {c.endpoint} == {c.endpoint};
  }

  /** ... itself come, on the same endpoint ... */
  lemma HearsItself(net: Net, u: nat, v: nat, d: Config, msgs: seq<ConnectMsg>, net': Net)
    requires u != v && v < |net.nodes| && d.uuid == v && Connectable(d.endpoint)
    requires LeftBehind(net, u, msgs) && !Expired(d, net.clock)
    requires net.nodes[v] == Linked(d, map[u := d.endpoint], {d.endpoint}, [], [Hello(d), Hello(d)])
    requires net' == Run(net, Hearing(v, v, net.clock))
    ensures net'.clock == net.clock && |net'.nodes| == |net.nodes| && LeftBehind(net', u, msgs)
    ensures net'.nodes[v] == Linked(d, map[u := d.endpoint, v := d.endpoint], {d.endpoint}, [], [Hello(d), Hello(d)])
  {
    assert [Hello(d), Hello(d)] == [Hello(d)] + [Hello(d)];
    HearingTurn(net, v, v, Hello(d), [Hello(d)], net.nodes[v].(outbox := [Hello(d)]));
    assert [Hello(d)] + ([Hello(d)] + []) == [Hello(d), Hello(d)];
    assert {d.endpoint} + {d.endpoint} == {d.endpoint};
  }

  /** ... and u go: it disconnects from its own endpoint. */
  lemma HearsBye(net: Net, u: nat, v: nat, c: Config, d: Config, rest: seq<ConnectMsg>, net': Net)
    requires u != v && v < |net.nodes| && c.uuid == u && d.uuid == v && c.endpoint == d.endpoint
    requires LeftBehind(net, u, [Bye(c)] + rest) && !Expired(d, net.clock)
    requires net.nodes[v] == Linked(d, map[u := d.endpoint, v := d.endpoint], {d.endpoint}, [], [Hello(d), Hello(d)])
    requires net' == Run(net, Hearing(u, v, net.clock))
    ensures |net'.nodes| == |net.nodes|
    ensures net'.nodes[v].local.peers == map[v := d.endpoint] && net'.nodes[v].local.connected == {}
  {
    HearingTurn(net, u, v, Bye(c), rest, net.nodes[v]);
  }

  /** The whole: u lives and leaves; v, which does nothing until then, starts on its port,
      and ends with itself in its map and connected to nothing. */
  lemma TakesOver(cs: seq<Config>, u: nat, v: nat)
    requires Configured(cs) && u < |cs| && v < |cs| && u != v
    requires cs[u].endpoint == cs[v].endpoint && Connectable(cs[u].endpoint)
    requires cs[u].endTime > 0 && (cs[v].endTime > 0 ==> cs[v].endTime > cs[u].endTime + 1)
    ensures var mid := Run(Start(cs), Lifetime(cs[u]));
            |mid.nodes| == |cs| && Gone(mid, u) && mid.clock == cs[u].endTime + 1 && mid.nodes[v] == Fresh(cs[v])
    ensures var end := Run(Start(cs), Lifetime(cs[u]) + Succeeding(u, v, cs[u].endTime + 1));
            |end.nodes| == |cs| && end.nodes[v].local.peers == map[v := cs[v].endpoint] && end.nodes[v].local.connected == {}
  {
    var mine, more := Lifetime(cs[u]), SaidAgain(cs[u]);
    Life(cs, u);
    var net := Run(Start(cs), mine);
    assert [Hello(cs[u]), Bye(cs[u])] + more == [Hello(cs[u])] + ([Bye(cs[u])] + more);
    SuccessorHears(net, u, v, cs[u], cs[v], more);
    RunAppend(Start(cs), mine, Succeeding(u, v, net.clock));
  }

  /** v's part of it. */
  lemma SuccessorHears(net: Net, u: nat, v: nat, c: Config, d: Config, more: seq<ConnectMsg>)
    requires u != v && v < |net.nodes| && c.uuid == u && d.uuid == v && c.endpoint == d.endpoint && Connectable(c.endpoint)
    requires LeftBehind(net, u, [Hello(c)] + ([Bye(c)] + more)) && net.nodes[v] == Fresh(d) && !Expired(d, net.clock)
    ensures var end := Run(net, Succeeding(u, v, net.clock));
            |end.nodes| == |net.nodes| && end.nodes[v].local.peers == map[v := d.endpoint] && end.nodes[v].local.connected == {}
  {
    var now := net.clock;
    LinkingLinks(net, v, now, d);
    var net1 := Run(net, Linking(v, now));
    var net2 := Run(net1, Hearing(u, v, now));
    HearsHello(net1, u, v, c, d, [Bye(c)] + more, net2);
    var net3 := Run(net2, Hearing(v, v, now));
    HearsItself(net2, u, v, d, [Bye(c)] + more, net3);
    HearsBye(net3, u, v, c, d, more, Run(net3, Hearing(u, v, now)));
    SucceedingRun(net, u, v, now);
  }
}
