/** Departures: a process that left is forgotten by everyone. */
module Departure {
  import opened Wrappers
  import opened Peer
  import opened Discovery

  /** Whether p is a member after the messages, given whether it was before: p's
      last C or D decides. */
  function After(known: bool, msgs: seq<ConnectMsg>, p: Uuid): bool {
    if msgs == [] then known else
      var m := msgs[|msgs| - 1];
      if m.uuid == p && m.command == CONNECT then true
      else if m.uuid == p && m.command == DISCONNECT then false
      else After(known, msgs[..|msgs| - 1], p)
  }

  lemma {:induction false} AfterHead(known: bool, m: ConnectMsg, rest: seq<ConnectMsg>, p: Uuid)
    ensures After(known, [m] + rest, p) == After(After(known, [m], p), rest, p)
  {
    if rest == [] {
      assert [m] + rest == [m];
    } else {
      var all := [m] + rest;
      assert all[..|all| - 1] == [m] + rest[..|rest| - 1];
      AfterHead(known, m, rest[..|rest| - 1], p);
    }
  }

  lemma {:induction false} AfterForeign(known: bool, a: seq<ConnectMsg>, m: ConnectMsg, b: seq<ConnectMsg>, p: Uuid)
    requires m.uuid != p
    ensures After(known, a + [m] + b, p) == After(known, a + b, p)
  {
    var all := a + [m] + b;
    if b == [] {
      assert all[..|all| - 1] == a && a + b == a;
    } else {
      var b' := b[..|b| - 1];
      assert all[..|all| - 1] == a + [m] + b';
      assert (a + b)[..|a + b| - 1] == a + b';
      AfterForeign(known, a, m, b', p);
    }
  }

  lemma {:induction false} AfterNothing(known: bool, msgs: seq<ConnectMsg>, p: Uuid)
    requires forall i :: 0 <= i < |msgs| ==> msgs[i].uuid != p
    ensures After(known, msgs, p) == known
  {
    if msgs != [] {
      AfterNothing(known, msgs[..|msgs| - 1], p);
    }
  }

  /** p has left, or has just sent the D of a turn it may leave in. */
  ghost predicate Leaving(nd: Node) {
    nd.departing && (!nd.local.running || nd.local.polling)
  }

  /** What p has said so far ends, for v, in p being gone; v may already be present
      or join later. */
  ghost predicate Forgets(net: Net, p: nat, v: nat)
    requires p < |net.nodes| && v < |net.nodes|
  {
    Leaving(net.nodes[p]) ==>
      var nd, out := net.nodes[v], net.nodes[p].outbox;
      && !After(false, out, p)
      && (Present(nd) ==> !After(p in nd.local.peers, nd.inbox + out, p))
  }

  lemma NothingBeforeLive(net: Net, p: nat, v: nat)
    requires Inv(net) && p < |net.nodes| && v < |net.nodes| && !net.nodes[p].live
    ensures !After(p in net.nodes[v].local.peers, net.nodes[v].inbox, p)
    ensures net.nodes[p].outbox == []
  {
    var nd := net.nodes[v];
    assert NodeInv(net, v) && NodeInv(net, p);
    assert p !in nd.local.peers;
    forall i | 0 <= i < |nd.inbox| ensures nd.inbox[i].uuid != p {
      assert nd.inbox[i] == Welcome(net) || Genuine(net, nd.inbox[i]);
    }
    AfterNothing(p in nd.local.peers, nd.inbox, p);
  }

  lemma ForgetsAfterTop(net: Net, p: nat, now: int, v: nat)
    requires Inv(net) && p < |net.nodes| && v < |net.nodes|
    requires Enabled(net, LoopTop(p, now))
    ensures Forgets(Step(net, LoopTop(p, now)), p, v)
  {
    var net' := Step(net, LoopTop(p, now));
    var nd, nd' := net'.nodes[v], net'.nodes[p];
    assert NodeInv(net, p) && NodeInv(net, v);
    if Leaving(nd') {
      // it departs now or departed before; either way this turn began with a D
      assert Expired(nd'.cfg, now);
      if net.nodes[p].live {
        var said := nd.inbox + nd'.outbox;
        assert said[|said| - 1] == Bye(nd'.cfg);
      } else {
        NothingBeforeLive(net, p, v);
        assert nd.inbox + nd'.outbox == nd.inbox;
      }
    }
  }

  lemma ForgetsAfterRelay(net: Net, u: nat, p: nat, v: nat)
    requires Inv(net) && p < |net.nodes| && v < |net.nodes|
    requires Enabled(net, Relay(u)) && Forgets(net, p, v)
    ensures Forgets(Step(net, Relay(u)), p, v)
  {
    var net' := Step(net, Relay(u));
    var nd, out := net.nodes[v], net.nodes[p].outbox;
    var m := net.nodes[u].outbox[0];
    assert NodeInv(net, u) && NodeInv(net, p) && m.uuid == u;
    if Leaving(net.nodes[p]) {
      if u == p {
        assert out == [m] + out[1..];
        assert (nd.inbox + [m]) + out[1..] == nd.inbox + out;
        AfterHead(false, m, out[1..], p);
        AfterFalse(After(false, [m], p), out[1..], p);
      } else {
        assert (nd.inbox + [m]) + out == nd.inbox + [m] + out;
        AfterForeign(p in nd.local.peers, nd.inbox, m, out, p);
      }
    }
  }

  /** If the messages end in p being gone, they do so from a state without p. */
  lemma {:induction false} AfterFalse(known: bool, msgs: seq<ConnectMsg>, p: Uuid)
    requires !After(known, msgs, p)
    ensures !After(false, msgs, p)
  {
    if msgs != [] {
      var m := msgs[|msgs| - 1];
      if !(m.uuid == p && (m.command == CONNECT || m.command == DISCONNECT)) {
        AfterFalse(known, msgs[..|msgs| - 1], p);
      }
    }
  }

  lemma OneMessage(known: bool, m: ConnectMsg, p: Uuid)
    ensures After(known, [m], p)
         == if m.uuid == p && m.command == CONNECT then true
            else if m.uuid == p && m.command == DISCONNECT then false
            else known
  {
    assert [m][..0] == [];
  }

  /** A turn that ends in leaving sends nothing after its D: the D is the last word. */
  lemma LastWords(net: Net, u: nat, receive: bool, p: nat)
    requires Inv(net) && p < |net.nodes|
    requires Enabled(net, LoopBottom(u, receive)) && Leaving(Step(net, LoopBottom(u, receive)).nodes[p])
    ensures Leaving(net.nodes[p]) && Step(net, LoopBottom(u, receive)).nodes[p].outbox == net.nodes[p].outbox
  {
    if u == p {
      assert NodeInv(net, p);
      var m := net.nodes[p].inbox[0];
      assert m == Welcome(net) || Genuine(net, m);
      assert net.nodes[p].outbox + [] == net.nodes[p].outbox;
    }
  }

  /** v's map after a turn is the fold over the one message it took. */
  lemma TurnFolds(net: Net, v: nat, receive: bool, p: nat)
    requires p < |net.nodes| && Enabled(net, LoopBottom(v, receive))
    ensures var nd, nd' := net.nodes[v], Step(net, LoopBottom(v, receive)).nodes[v];
            && (p in nd'.local.peers) == After(p in nd.local.peers, if receive then [nd.inbox[0]] else [], p)
            && nd.inbox == (if receive then [nd.inbox[0]] else []) + nd'.inbox
  {
    var nd := net.nodes[v];
    TurnEffect(nd.cfg, nd.local, if receive then Some(nd.inbox[0]) else None, p);
    if receive {
      OneMessage(p in nd.local.peers, nd.inbox[0], p);
    }
  }

  lemma ForgetsAfterBottom(net: Net, u: nat, receive: bool, p: nat, v: nat)
    requires Inv(net) && p < |net.nodes| && v < |net.nodes|
    requires Enabled(net, LoopBottom(u, receive)) && Forgets(net, p, v)
    ensures Forgets(Step(net, LoopBottom(u, receive)), p, v)
  {
    var net' := Step(net, LoopBottom(u, receive));
    if Leaving(net'.nodes[p]) {
      LastWords(net, u, receive, p);
      if u == v && Present(net'.nodes[v]) {
        TurnFolds(net, v, receive, p);
        if receive {
          var nd, out, rest := net.nodes[v], net.nodes[p].outbox, net'.nodes[v].inbox;
          assert nd.inbox + out == [nd.inbox[0]] + (rest + out);
          AfterHead(p in nd.local.peers, nd.inbox[0], rest + out, p);
        }
      }
    }
  }

  lemma ForgetsStep(net: Net, a: Action, p: nat, v: nat)
    requires Inv(net) && p < |net.nodes| && v < |net.nodes| && Forgets(net, p, v)
    ensures |Step(net, a).nodes| == |net.nodes| && Forgets(Step(net, a), p, v)
  {
    if Enabled(net, a) {
      match a
      case Join(u) =>
        if u == v {
          assert NodeInv(net, v);
          var out := net.nodes[p].outbox;
          assert [Welcome(net)] + out == [] + [Welcome(net)] + out;
          assert [] + out == out;
          AfterForeign(false, [], Welcome(net), out, p);
        }
      case LinkUp(_) =>
      case Relay(u) => ForgetsAfterRelay(net, u, p, v);
      case LoopTop(u, now) =>
        if u == p {
          ForgetsAfterTop(net, p, now, v);
        }
      case LoopBottom(u, receive) => ForgetsAfterBottom(net, u, receive, p, v);
    }
  }

  lemma {:induction false} ForgetsReachable(cs: seq<Config>, acts: seq<Action>, p: nat, v: nat)
    requires Configured(cs) && p < |cs| && v < |cs|
    ensures var net := Run(Start(cs), acts); |net.nodes| == |cs| && Forgets(net, p, v)
  {
    if acts != [] {
      Reachable(cs, acts[..|acts| - 1]);
      ForgetsReachable(cs, acts[..|acts| - 1], p, v);
      ForgetsStep(Run(Start(cs), acts[..|acts| - 1]), acts[|acts| - 1], p, v);
    }
  }

  /** No stale members: once p has left and nothing of p is on its way, no process
      still present has p in its map. */
  lemma NoStaleMember(cs: seq<Config>, acts: seq<Action>, p: nat, v: nat)
    requires Configured(cs) && p < |cs| && v < |cs|
    requires var net := Run(Start(cs), acts);
             && |net.nodes| == |cs|
             && !net.nodes[p].local.running && Present(net.nodes[v])
             && net.nodes[p].outbox == []
             && forall i :: 0 <= i < |net.nodes[v].inbox| ==> net.nodes[v].inbox[i].uuid != p
    ensures p !in Run(Start(cs), acts).nodes[v].local.peers
  {
    var net := Run(Start(cs), acts);
    Reachable(cs, acts);
    ForgetsReachable(cs, acts, p, v);
    assert NodeInv(net, p);
    var nd := net.nodes[v];
    assert nd.inbox + [] == nd.inbox;
    AfterNothing(p in nd.local.peers, nd.inbox, p);
  }
}
