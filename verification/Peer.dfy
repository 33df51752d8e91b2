/** One process of the discovery protocol (3186/peer.cpp): the body of its main
    loop as functions on its state, and the loop itself proved against them.

    A uuid is a number; the program only ever compares uuids. */
module Peer {
  import opened Wrappers

  type Uuid = nat
  type Endpoint = string

  const WELCOME := 'W'
  const CONNECT := 'C'
  const DISCONNECT := 'D'

  datatype ConnectMsg = ConnectMsg(command: char, uuid: Uuid, endpoint: Endpoint)

  /** What a process whose bind failed announces: the empty last endpoint. */
  const UNBOUND: Endpoint := ""

  /** zmq_connect parses the endpoint; one that a bind reported can be connected to. */
  predicate Connectable(e: Endpoint) {
    e != UNBOUND
  }

  /** Fixed when the process starts. endTime is 0 for a process that never leaves. */
  datatype Config = Config(uuid: Uuid, endpoint: Endpoint, endTime: int, immediateExit: bool, duplicateDisconnect: bool)

  /** `connected` holds the endpoints dataSub is connected to, `proxies` those
      proxyPub is connected to. `polling` marks the middle of a loop turn: the
      expiry check is done and zmq_poll has been entered. */
  datatype Local = Local(
    peers: map<Uuid, Endpoint>,
    connected: set<Endpoint>,
    proxies: set<Endpoint>,
    polling: bool,
    running: bool)

  const BEGIN := Local(map[], {}, {}, false, true)

  function Hello(c: Config): ConnectMsg { ConnectMsg(CONNECT, c.uuid, c.endpoint) }

  function Bye(c: Config): ConnectMsg { ConnectMsg(DISCONNECT, c.uuid, c.endpoint) }

  predicate Expired(c: Config, now: int) {
    c.endTime > 0 && now > c.endTime
  }

  /** From the top of the loop to zmq_poll: the new state and what is sent. */
  function Top(c: Config, l: Local, now: int): (Local, seq<ConnectMsg>) {
    if Expired(c, now) then
      (if c.immediateExit then l.(running := false) else l.(polling := true), [Bye(c)])
    else
      (l.(polling := true), [])
  }

  /** Connecting a socket that connects to each endpoint once; a failure is only logged. */
  function ConnectTo(connected: set<Endpoint>, e: Endpoint): set<Endpoint> {
    if Connectable(e) then connected + {e} else connected
  }

  /** Handling one message from the proxy. */
  function Handle(c: Config, l: Local, m: ConnectMsg): (Local, seq<ConnectMsg>) {
    if m.command == WELCOME then
      (l.(proxies := ConnectTo(l.proxies, m.endpoint)), [])
    else if m.command == CONNECT && m.uuid !in l.peers then
      (l.(peers := l.peers[m.uuid := m.endpoint], connected := ConnectTo(l.connected, m.endpoint)),
       if m.uuid != c.uuid then [Hello(c)] else [])
    else if m.command == DISCONNECT && m.uuid in l.peers then
      (l.(peers := l.peers - {m.uuid}, connected := l.connected - {m.endpoint}, running := m.uuid != c.uuid), [])
    else
      (l, [])
  }

  /** From zmq_poll to the end of the turn; `got` is what the proxy socket had. */
  function Bottom(c: Config, l: Local, got: Option<ConnectMsg>): (Local, seq<ConnectMsg>) {
    var l1 := l.(polling := false);
    var hello := if c.uuid in l.peers then [] else [Hello(c)];
    if got.None? then (l1, hello) else
      var (l2, replies) := Handle(c, l1, got.value);
      (l2, hello + replies)
  }

  /** Who is in the map after a turn: only p's own C or D changes p's entry. */
  lemma TurnEffect(c: Config, l: Local, got: Option<ConnectMsg>, p: Uuid)
    ensures p in Bottom(c, l, got).0.peers
       <==> if got.Some? && got.value.uuid == p && got.value.command == CONNECT then true
            else if got.Some? && got.value.uuid == p && got.value.command == DISCONNECT then false
            else p in l.peers
  {
  }

  datatype Turn = Turn(now: int, got: Option<ConnectMsg>)

  /** A whole run of main over what the clock and the proxy socket gave it. */
  function Main(c: Config, turns: seq<Turn>): (Local, seq<ConnectMsg>) {
    if turns == [] then (BEGIN, []) else
      var (l, sent) := Main(c, turns[..|turns| - 1]);
      var t := turns[|turns| - 1];
      if !l.running then (l, sent) else
        var (l1, sent1) := Top(c, l, t.now);
        if !l1.running then (l1, sent + sent1) else
          var (l2, sent2) := Bottom(c, l1, t.got);
          (l2, sent + sent1 + sent2)
  }

  /** A list of turns the clock and the network can produce: time does not run
      backwards, and our own D comes back only after a turn that sent it. */
  ghost predicate Plausible(c: Config, turns: seq<Turn>) {
    && (forall i, j :: 0 <= i < j < |turns| ==> turns[i].now <= turns[j].now)
    && (forall i :: 0 <= i < |turns| && turns[i].got == Some(Bye(c)) ==>
          exists j :: 0 <= j <= i && Expired(c, turns[j].now))
    && (forall i :: 0 <= i < |turns| && turns[i].got.Some? && turns[i].got.value.uuid == c.uuid && turns[i].got.value.command == DISCONNECT
          ==> turns[i].got.value == Bye(c))
  }

  /** A process that has left its loop said D last: nothing follows the D of the
      turn it left in, even if it answered newcomers after an earlier D. */
  lemma {:induction false} LastWordIsBye(c: Config, turns: seq<Turn>)
    requires Plausible(c, turns) && !Main(c, turns).0.running
    ensures var sent := Main(c, turns).1; sent != [] && sent[|sent| - 1] == Bye(c)
  {
    var pre, t := turns[..|turns| - 1], turns[|turns| - 1];
    var (l, sent) := Main(c, pre);
    if !l.running {
      LastWordIsBye(c, pre);
    } else {
      var (l1, sent1) := Top(c, l, t.now);
      if l1.running {
        assert t.got == Some(Bye(c));
        assert Expired(c, t.now);
        assert Bottom(c, l1, t.got).1 == [];
        assert Main(c, turns).1 == sent + [Bye(c)] + [];
      }
    }
  }

  class PeerProcess {
    const config: Config
    var peers: map<Uuid, Endpoint>
    var connected: set<Endpoint>
    var proxies: set<Endpoint>
    var sent: seq<ConnectMsg>

    constructor (c: Config)
      ensures config == c
      ensures State() == BEGIN && sent == []
    {
      config := c;
      peers, connected, proxies, sent := map[], {}, {}, [];
    }

    /** The state between two turns of a process that has not left its loop. */
    function State(): Local reads this {
      Local(peers, connected, proxies, false, true)
    }

    method SendConnectMsg(command: char)
      modifies this`sent
      ensures sent == old(sent) + [ConnectMsg(command, config.uuid, config.endpoint)]
    {
      sent := sent + [ConnectMsg(command, config.uuid, config.endpoint)];
    }

    /** zmq_connect on a SUB socket: connecting twice is connecting once. */
    method ConnectData(e: Endpoint) returns (rc: int)
      modifies this`connected
      ensures connected == ConnectTo(old(connected), e)
      ensures rc == 0 <==> Connectable(e)
    {
      if !Connectable(e) {
        return -1;
      }
      connected := connected + {e};
      rc := 0;
    }

    /** zmq_disconnect; on an unknown endpoint it only reports an error. */
    method DisconnectData(e: Endpoint) returns (rc: int)
      modifies this`connected
      ensures connected == old(connected) - {e}
      ensures rc == 0 <==> e in old(connected)
    {
      rc := if e in connected then 0 else -1;
      connected := connected - {e};
    }

    /** One message from the proxy; `quit` when it was our own disconnect message. */
    method HandleMsg(m: ConnectMsg) returns (quit: bool)
      modifies this`peers, this`connected, this`proxies, this`sent
      ensures var (l, replies) := Handle(config, old(State()), m);
              State().(running := !quit) == l && sent == old(sent) + replies
    {
      quit := false;
      var known := m.uuid in peers;
      if m.command == WELCOME {
        if Connectable(m.endpoint) {
          proxies := proxies + {m.endpoint};
        }
      } else if m.command == CONNECT {
        if !known {
          peers := peers[m.uuid := m.endpoint];
          var rc := ConnectData(m.endpoint);
          if m.uuid != config.uuid {
            SendConnectMsg(CONNECT);
          }
        }
      } else if m.command == DISCONNECT {
        if known {
          peers := peers - {m.uuid};
          var rc := DisconnectData(m.endpoint);
          if config.duplicateDisconnect {
            rc := DisconnectData(m.endpoint);
          }
          if m.uuid == config.uuid {
            quit := true;
          }
        }
      }
    }

    /** From the top of the loop to zmq_poll. */
    method TurnTop(now: int) returns (quit: bool)
      modifies this`sent
      ensures var (l, out) := Top(config, State(), now);
              sent == old(sent) + out && quit == !l.running
    {
      quit := false;
      if config.endTime > 0 && now > config.endTime {
        SendConnectMsg(DISCONNECT);
        quit := config.immediateExit;
      }
    }

    /** From zmq_poll to the end of the turn. */
    method TurnBottom(got: Option<ConnectMsg>) returns (quit: bool)
      modifies this`peers, this`connected, this`proxies, this`sent
      ensures var (l, out) := Bottom(config, old(State()).(polling := true), got);
              sent == old(sent) + out && State().(running := !quit) == l
    {
      quit := false;
      ghost var hello := if config.uuid in peers then [] else [Hello(config)];
      if config.uuid !in peers {
        SendConnectMsg(CONNECT);
      }
      assert sent == old(sent) + hello;
      if got.Some? {
        ghost var replies := Handle(config, State(), got.value).1;
        quit := HandleMsg(got.value);
        assert sent == old(sent) + (hello + replies);
      }
    }

    /** main's loop, driven by a list of turns. */
    method Loop(turns: seq<Turn>) returns (left: bool)
      requires State() == BEGIN && sent == []
      modifies this`peers, this`connected, this`proxies, this`sent
      ensures var (l, out) := Main(config, turns);
              && sent == out && left == !l.running
              && peers == l.peers && connected == l.connected && proxies == l.proxies
    {
      left := false;
      var i := 0;
      while i < |turns|
        invariant i <= |turns| && !left
        invariant Main(config, turns[..i]) == (State(), sent)
      {
        assert turns[..i + 1][..i] == turns[..i];
        i := i + 1;
        left := TurnTop(turns[i - 1].now);
        if left {
          break;
        }
        left := TurnBottom(turns[i - 1].got);
        if left {
          break;
        }
      }
      assert turns[..|turns|] == turns;
      if left {
        LeftForGood(config, turns, i);
      }
    }
  }

  lemma {:induction false} LeftForGood(c: Config, turns: seq<Turn>, i: nat)
    requires i <= |turns| && !Main(c, turns[..i]).0.running
    ensures Main(c, turns) == Main(c, turns[..i])
  {
    if i == |turns| {
      assert turns[..i] == turns;
    } else {
      var pre := turns[..|turns| - 1];
      assert pre[..i] == turns[..i];
      LeftForGood(c, pre, i);
    }
  }
}
