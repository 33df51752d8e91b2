/** What the main loop of 3186/peer.cpp computes, in terms of the messages it took and the
    times it read -- and that the processes of the network are runs of that loop. */
module MainLoop {
  import opened Wrappers
  import opened Peer
  import opened Discovery
  import opened Departure

  // ---- said without the loop

  /** The messages taken, in order. */
  function Got(turns: seq<Turn>): seq<ConnectMsg> {
    if turns == [] then [] else
      var t := turns[|turns| - 1];
      Got(turns[..|turns| - 1]) + (if t.got.Some? then [t.got.value] else [])
  }

  /** The endpoint known of p after the messages: that of the first C since p's last D. */
  function Stored(msgs: seq<ConnectMsg>, p: Uuid): Option<Endpoint> {
    if msgs == [] then None else
      var m, before := msgs[|msgs| - 1], Stored(msgs[..|msgs| - 1], p);
      if m.uuid == p && m.command == CONNECT && before.None? then Some(m.endpoint)
      else if m.uuid == p && m.command == DISCONNECT then None
      else before
  }

  /** The endpoints dataSub is connected to after the messages. */
  function Connections(msgs: seq<ConnectMsg>): set<Endpoint> {
    if msgs == [] then {} else
      var m, pre := msgs[|msgs| - 1], msgs[..|msgs| - 1];
      if m.command == CONNECT && Connectable(m.endpoint) && Stored(pre, m.uuid).None? then Connections(pre) + {m.endpoint}
      else if m.command == DISCONNECT && Stored(pre, m.uuid).Some? then Connections(pre) - {m.endpoint}
      else Connections(pre)
  }

  ghost predicate Welcomes(msgs: seq<ConnectMsg>, e: Endpoint) {
    exists i :: 0 <= i < |msgs| && msgs[i].command == WELCOME && msgs[i].endpoint == e && Connectable(e)
  }

  /** The state is what the messages amount to. */
  ghost predicate Reflects(l: Local, msgs: seq<ConnectMsg>) {
    && (forall p :: p in l.peers <==> Stored(msgs, p).Some?)
    && (forall p :: p in l.peers ==> Some(l.peers[p]) == Stored(msgs, p))
    && l.connected == Connections(msgs)
    && (forall e :: e in l.proxies <==> Welcomes(msgs, e))
  }

  /** Its end time, if it has one, has passed. */
  predicate Due(c: Config, now: int) {
    0 < c.endTime < now
  }

  /** What is said in turn i: D when due; C while the process does not know itself; C to
      a newcomer. */
  function Words(c: Config, turns: seq<Turn>, i: nat): seq<ConnectMsg>
    requires i < |turns|
  {
    var t, before := turns[i], Got(turns[..i]);
    (if Due(c, t.now) then [Bye(c)] else [])
    + (if Stored(before, c.uuid).None? then [Hello(c)] else [])
    + (if t.got.Some? && t.got.value.command == CONNECT && t.got.value.uuid != c.uuid && Stored(before, t.got.value.uuid).None?
       then [Hello(c)] else [])
  }

  /** All that is said in the first k turns. */
  function Speech(c: Config, turns: seq<Turn>, k: nat): seq<ConnectMsg>
    requires k <= |turns|
  {
    if k == 0 then [] else Speech(c, turns, k - 1) + Words(c, turns, k - 1)
  }

  predicate ExitsAtOnce(c: Config, now: int) {
    c.immediateExit && Due(c, now)
  }

  /** Turn i is one to leave in: at once when due, or on taking its own D while it knows
      itself. */
  predicate LeavesIn(c: Config, turns: seq<Turn>, i: nat)
    requires i < |turns|
  {
    || ExitsAtOnce(c, turns[i].now)
    || (turns[i].got.Some? && turns[i].got.value.command == DISCONNECT && turns[i].got.value.uuid == c.uuid
        && Stored(Got(turns[..i]), c.uuid).Some?)
  }

  /** It has not left before turn k. */
  ghost predicate Lasts(c: Config, turns: seq<Turn>, k: nat)
    requires k <= |turns|
  {
    forall i :: 0 <= i < k ==> !LeavesIn(c, turns, i)
  }

  // ---- one message

  lemma StoredLast(msgs: seq<ConnectMsg>, m: ConnectMsg, p: Uuid)
    ensures Stored(msgs + [m], p) == if m.uuid == p && m.command == CONNECT && Stored(msgs, p).None? then Some(m.endpoint)
                                     else if m.uuid == p && m.command == DISCONNECT then None
                                     else Stored(msgs, p)
  {
    assert (msgs + [m])[..|msgs|] == msgs;
  }

  lemma WelcomesLast(msgs: seq<ConnectMsg>, m: ConnectMsg, e: Endpoint)
    ensures Welcomes(msgs + [m], e) <==> Welcomes(msgs, e) || (m.command == WELCOME && m.endpoint == e && Connectable(e))
  {
    var all := msgs + [m];
    if i :| 0 <= i < |msgs| && msgs[i].command == WELCOME && msgs[i].endpoint == e && Connectable(e) {
      assert all[i].command == WELCOME && all[i].endpoint == e;
    }
    if m.command == WELCOME && m.endpoint == e && Connectable(e) {
      assert all[|msgs|] == m;
    }
  }

  lemma HandleReflects(c: Config, l: Local, msgs: seq<ConnectMsg>, m: ConnectMsg)
    requires Reflects(l, msgs)
    ensures Reflects(Handle(c, l, m).0, msgs + [m])
  {
    var l' := Handle(c, l, m).0;
    assert (msgs + [m])[..|msgs|] == msgs;
    forall p ensures p in l'.peers <==> Stored(msgs + [m], p).Some?
             ensures p in l'.peers ==> Some(l'.peers[p]) == Stored(msgs + [m], p)
    {
      StoredLast(msgs, m, p);
    }
    forall e ensures e in l'.proxies <==> Welcomes(msgs + [m], e) {
      WelcomesLast(msgs, m, e);
    }
  }

  // ---- the loop

  lemma GotLast(turns: seq<Turn>, i: nat)
    requires i < |turns|
    ensures Got(turns[..i + 1]) == Got(turns[..i]) + (if turns[i].got.Some? then [turns[i].got.value] else [])
  {
    assert turns[..i + 1][..i] == turns[..i];
  }

  /** One more turn of a process that has not left. */
  lemma TurnSays(c: Config, turns: seq<Turn>, k: nat, l: Local)
    requires k < |turns| && Reflects(l, Got(turns[..k])) && l.running && !l.polling && !ExitsAtOnce(c, turns[k].now)
    ensures var (l1, said1) := Top(c, l, turns[k].now);
            var (l2, said2) := Bottom(c, l1, turns[k].got);
            && l1.running && Reflects(l2, Got(turns[..k + 1])) && !l2.polling
            && (l2.running <==> !LeavesIn(c, turns, k))
            && said1 + said2 == Words(c, turns, k)
  {
    GotLast(turns, k);
    var before := Got(turns[..k]);
    if turns[k].got.Some? {
      HandleReflects(c, l.(polling := false), before, turns[k].got.value);
    } else {
      assert before + [] == before;
    }
  }

  lemma MainNext(c: Config, turns: seq<Turn>, k: nat)
    requires k < |turns|
    ensures var (l, sent) := Main(c, turns[..k]);
            Main(c, turns[..k + 1]) ==
              if !l.running then (l, sent) else
                var (l1, sent1) := Top(c, l, turns[k].now);
                if !l1.running then (l1, sent + sent1) else
                  var (l2, sent2) := Bottom(c, l1, turns[k].got);
                  (l2, sent + sent1 + sent2)
  {
    assert turns[..k + 1][..k] == turns[..k];
  }

  /** While it lasts, its state is what it took amounts to, and it has said what each turn
      calls for. */
  lemma {:induction false} MainLasts(c: Config, turns: seq<Turn>, k: nat)
    requires k <= |turns| && Lasts(c, turns, k)
    ensures var (l, sent) := Main(c, turns[..k]);
            l.running && !l.polling && Reflects(l, Got(turns[..k])) && sent == Speech(c, turns, k)
  {
    if k == 0 {
      assert turns[..0] == [];
    } else {
      assert !LeavesIn(c, turns, k - 1);
      MainLasts(c, turns, k - 1);
      MainNext(c, turns, k - 1);
      var (l, sent) := Main(c, turns[..k - 1]);
      TurnSays(c, turns, k - 1, l);
      var (l1, said1) := Top(c, l, turns[k - 1].now);
      var said2 := Bottom(c, l1, turns[k - 1].got).1;
      assert sent + said1 + said2 == sent + (said1 + said2);
    }
  }

  /** And it leaves in the first turn that is one to leave in: with nothing said but the D
      it may owe, and on its own D with that taken. */
  lemma MainLeaves(c: Config, turns: seq<Turn>, k: nat)
    requires k < |turns| && Lasts(c, turns, k) && LeavesIn(c, turns, k)
    ensures var (l, sent) := Main(c, turns);
            && !l.running
            && sent == Speech(c, turns, k) + (if Due(c, turns[k].now) then [Bye(c)] else [])
            && Reflects(l, Got(turns[..if ExitsAtOnce(c, turns[k].now) then k else k + 1]))
  {
    MainLasts(c, turns, k);
    MainNext(c, turns, k);
    var (l, sent) := Main(c, turns[..k]);
    if !ExitsAtOnce(c, turns[k].now) {
      TurnSays(c, turns, k, l);
      var (l1, said1) := Top(c, l, turns[k].now);
      var said2 := Bottom(c, l1, turns[k].got).1;
      assert sent + said1 + said2 == sent + (said1 + said2);
    }
    LeftForGood(c, turns, k + 1);
  }

  /** It is still in its loop iff no turn was one to leave in. */
  lemma RunningIff(c: Config, turns: seq<Turn>)
    ensures Main(c, turns).0.running <==> Lasts(c, turns, |turns|)
  {
    assert turns[..|turns|] == turns;
    if Lasts(c, turns, |turns|) {
      MainLasts(c, turns, |turns|);
    } else {
      var k := FirstToLeave(c, turns, |turns|);
      MainLeaves(c, turns, k);
    }
  }

  lemma {:induction false} FirstToLeave(c: Config, turns: seq<Turn>, n: nat) returns (k: nat)
    requires n <= |turns| && !Lasts(c, turns, n)
    ensures k < n && Lasts(c, turns, k) && LeavesIn(c, turns, k)
  {
    if Lasts(c, turns, n - 1) {
      k := n - 1;
    } else {
      k := FirstToLeave(c, turns, n - 1);
    }
  }

  lemma {:induction false} StoredAfter(msgs: seq<ConnectMsg>, p: Uuid)
    ensures Stored(msgs, p).Some? <==> After(false, msgs, p)
  {
    if msgs != [] {
      StoredAfter(msgs[..|msgs| - 1], p);
    }
  }

  /** The k turns it lasts, and it leaves in the next one if there is one. */
  ghost predicate LastsUpTo(c: Config, turns: seq<Turn>, k: nat) {
    k <= |turns| && Lasts(c, turns, k) && (k < |turns| ==> LeavesIn(c, turns, k))
  }

  /** How many turns got as far as their message. */
  function Completed(c: Config, turns: seq<Turn>, k: nat): nat
    requires k <= |turns|
  {
    if k == |turns| || ExitsAtOnce(c, turns[k].now) then k else k + 1
  }

  /** The map at the end of a run holds exactly those whose last C or D, of all the messages
      taken, is a C; all the rest is what the messages taken amount to as well. */
  lemma MapIsLastWord(c: Config, turns: seq<Turn>, k: nat, p: Uuid)
    requires LastsUpTo(c, turns, k)
    ensures var l, taken := Main(c, turns).0, Got(turns[..Completed(c, turns, k)]);
            && Reflects(l, taken)
            && (p in l.peers <==> After(false, taken, p))
  {
    MainLasts(c, turns, k);
    if k < |turns| {
      MainLeaves(c, turns, k);
    }
    assert turns[..|turns|] == turns;
    StoredAfter(Got(turns[..Completed(c, turns, k)]), p);
  }

  /** Every run is of that form. */
  lemma LastsSomewhere(c: Config, turns: seq<Turn>) returns (k: nat)
    ensures LastsUpTo(c, turns, k)
  {
    if Lasts(c, turns, |turns|) {
      k := |turns|;
    } else {
      k := FirstToLeave(c, turns, |turns|);
    }
  }

  // ---- the processes of the network

  /** What happened to one process of the network: its finished turns, the time read in a
      turn under way, how many of its words were dropped because its link was not up, which
      of the others the proxy has relayed, and what the proxy has delivered to it. */
  datatype Diary = Diary(turns: seq<Turn>, top: Option<int>, dropped: nat, relayed: seq<ConnectMsg>, mail: seq<ConnectMsg>)

  /** All it has said, in order. */
  function Said(c: Config, d: Diary): seq<ConnectMsg> {
    var (l, sent) := Main(c, d.turns);
    if d.top.Some? then sent + Top(c, l, d.top.value).1 else sent
  }

  function Noted(net: Net, a: Action, u: nat, d: Diary): Diary
    requires u < |net.nodes|
  {
    if !Enabled(net, a) then d else
      var nd := net.nodes[u];
      match a
      case Join(v) => if v == u then d.(mail := [Welcome(net)]) else d
      case LinkUp(v) => if v == u then d.(dropped := |Said(nd.cfg, d)|) else d
      case Relay(v) =>
        var m := net.nodes[v].outbox[0];
        d.(relayed := if v == u then d.relayed + [m] else d.relayed, mail := if Present(nd) then d.mail + [m] else d.mail)
      case LoopTop(v, now) =>
        if v != u then d
        else if ExitsAtOnce(nd.cfg, now) then d.(turns := d.turns + [Turn(now, None)])
        else d.(top := Some(now))
      case LoopBottom(v, receive) =>
        if v != u || d.top.None? then d
        else d.(turns := d.turns + [Turn(d.top.value, if receive then Some(nd.inbox[0]) else None)], top := None)
  }

  function Kept(cs: seq<Config>, acts: seq<Action>, u: nat): Diary
    requires u < |cs|
    ensures |Run(Start(cs), acts).nodes| == |cs|
  {
    if acts == [] then Diary([], None, 0, [], []) else
      var pre := acts[..|acts| - 1];
      var d, net := Kept(cs, pre, u), Run(Start(cs), pre);
      StepGrows(net, acts[|acts| - 1]);
      Noted(net, acts[|acts| - 1], u, d)
  }

  /** The state is the loop's. */
  ghost predicate InStep(nd: Node, d: Diary) {
    var l := Main(nd.cfg, d.turns).0;
    if d.top.None? then nd.local == l && !l.polling
    else l.running && !ExitsAtOnce(nd.cfg, d.top.value) && nd.local == Top(nd.cfg, l, d.top.value).0
  }

  /** Every word said since the link came up was relayed, in order, or waits to be. */
  ghost predicate WordsPassedOn(nd: Node, d: Diary) {
    if nd.live then
      d.dropped <= |Said(nd.cfg, d)| && d.relayed + nd.outbox == Said(nd.cfg, d)[d.dropped..]
    else
      d.relayed == [] && nd.outbox == []
  }

  /** Every message delivered was taken, in order, or waits to be. */
  ghost predicate MailTaken(nd: Node, d: Diary) {
    && Got(d.turns) + nd.inbox == d.mail
    && (!nd.joined ==> d.mail == [])
  }

  lemma MainMore(c: Config, turns: seq<Turn>, t: Turn)
    ensures var (l, sent) := Main(c, turns);
            Main(c, turns + [t]) ==
              if !l.running then (l, sent) else
                var (l1, sent1) := Top(c, l, t.now);
                if !l1.running then (l1, sent + sent1) else
                  var (l2, sent2) := Bottom(c, l1, t.got);
                  (l2, sent + sent1 + sent2)
  {
    assert (turns + [t])[..|turns|] == turns;
  }

  lemma StaysInStep(net: Net, a: Action, u: nat, d: Diary)
    requires u < |net.nodes| && InStep(net.nodes[u], d)
    ensures u < |Step(net, a).nodes| && InStep(Step(net, a).nodes[u], Noted(net, a, u, d))
  {
    if Enabled(net, a) && a.u == u {
      var nd := net.nodes[u];
      if a.LoopTop? {
        MainMore(nd.cfg, d.turns, Turn(a.now, None));
      } else if a.LoopBottom? {
        MainMore(nd.cfg, d.turns, Turn(d.top.value, if a.receive then Some(nd.inbox[0]) else None));
      }
    }
  }

  /** What one action makes a process say. */
  lemma SaidMore(net: Net, a: Action, u: nat, d: Diary)
    requires u < |net.nodes| && InStep(net.nodes[u], d) && Enabled(net, a)
    ensures var nd := net.nodes[u];
            Said(nd.cfg, Noted(net, a, u, d)) == Said(nd.cfg, d) +
              (if a.u != u then [] else
                 match a
                 case LoopTop(_, now) => Top(nd.cfg, nd.local, now).1
                 case LoopBottom(_, receive) => Bottom(nd.cfg, nd.local, if receive then Some(nd.inbox[0]) else None).1
                 case _ => [])
  {
    var nd := net.nodes[u];
    if a.u == u {
      if a.LoopTop? {
        MainMore(nd.cfg, d.turns, Turn(a.now, None));
      } else if a.LoopBottom? {
        MainMore(nd.cfg, d.turns, Turn(d.top.value, if a.receive then Some(nd.inbox[0]) else None));
      } else {
        assert Said(nd.cfg, d) + [] == Said(nd.cfg, d);
      }
    } else {
      assert Said(nd.cfg, d) + [] == Said(nd.cfg, d);
    }
  }

  /** What an action that is not the process's own turn leaves of its words. */
  lemma OthersPassOn(net: Net, a: Action, u: nat, d: Diary)
    requires u < |net.nodes| && InStep(net.nodes[u], d) && WordsPassedOn(net.nodes[u], d)
    requires Enabled(net, a) && !(a.u == u && (a.LoopTop? || a.LoopBottom?))
    ensures u < |Step(net, a).nodes| && WordsPassedOn(Step(net, a).nodes[u], Noted(net, a, u, d))
  {
    SaidMore(net, a, u, d);
    var nd, d' := net.nodes[u], Noted(net, a, u, d);
    assert Said(nd.cfg, d') == Said(nd.cfg, d);
    if a.u == u && a.Relay? {
      assert d'.relayed + nd.outbox[1..] == d.relayed + nd.outbox;
    }
  }

  lemma MoreWords(nd: Node, nd': Node, d: Diary, d': Diary, more: seq<ConnectMsg>)
    requires WordsPassedOn(nd, d) && nd'.cfg == nd.cfg && nd'.live == nd.live
    requires Said(nd.cfg, d') == Said(nd.cfg, d) + more && d'.dropped == d.dropped && d'.relayed == d.relayed
    requires nd'.outbox == if nd.live then nd.outbox + more else nd.outbox
    ensures WordsPassedOn(nd', d')
  {
    if nd.live {
      var said := Said(nd.cfg, d);
      assert d.relayed + (nd.outbox + more) == (d.relayed + nd.outbox) + more;
      assert (said + more)[d.dropped..] == said[d.dropped..] + more;
    }
  }

  lemma TurnPassesOn(net: Net, a: Action, u: nat, d: Diary)
    requires u < |net.nodes| && InStep(net.nodes[u], d) && WordsPassedOn(net.nodes[u], d)
    requires Enabled(net, a) && a.u == u && (a.LoopTop? || a.LoopBottom?)
    ensures u < |Step(net, a).nodes| && WordsPassedOn(Step(net, a).nodes[u], Noted(net, a, u, d))
  {
    SaidMore(net, a, u, d);
    var nd := net.nodes[u];
    var more := if a.LoopTop? then Top(nd.cfg, nd.local, a.now).1
                else Bottom(nd.cfg, nd.local, if a.receive then Some(nd.inbox[0]) else None).1;
    MoreWords(nd, Step(net, a).nodes[u], d, Noted(net, a, u, d), more);
  }

  lemma StaysPassedOn(net: Net, a: Action, u: nat, d: Diary)
    requires u < |net.nodes| && InStep(net.nodes[u], d) && WordsPassedOn(net.nodes[u], d)
    ensures u < |Step(net, a).nodes| && WordsPassedOn(Step(net, a).nodes[u], Noted(net, a, u, d))
  {
    if Enabled(net, a) {
      if a.u == u && (a.LoopTop? || a.LoopBottom?) {
        TurnPassesOn(net, a, u, d);
      } else {
        OthersPassOn(net, a, u, d);
      }
    }
  }

  lemma GotMore(turns: seq<Turn>, now: int, got: Option<ConnectMsg>)
    ensures Got(turns + [Turn(now, got)]) == Got(turns) + (if got.Some? then [got.value] else [])
  {
    assert (turns + [Turn(now, got)])[..|turns|] == turns;
  }

  /** The next turns took `head` off the front of the inbox. */
  lemma TakenOff(nd: Node, nd': Node, d: Diary, d': Diary, head: seq<ConnectMsg>)
    requires MailTaken(nd, d) && d'.mail == d.mail && nd'.joined == nd.joined
    requires Got(d'.turns) == Got(d.turns) + head && head + nd'.inbox == nd.inbox
    ensures MailTaken(nd', d')
  {
    assert (Got(d.turns) + head) + nd'.inbox == Got(d.turns) + (head + nd'.inbox);
  }

  /** A turn with its message, or one that had none. */
  lemma TurnTakes(nd: Node, nd': Node, d: Diary, d': Diary, now: int, got: Option<ConnectMsg>)
    requires MailTaken(nd, d) && d'.mail == d.mail && nd'.joined == nd.joined
    requires d'.turns == d.turns + [Turn(now, got)]
    requires if got.Some? then nd.inbox != [] && got.value == nd.inbox[0] && nd'.inbox == nd.inbox[1..] else nd'.inbox == nd.inbox
    ensures MailTaken(nd', d')
  {
    GotMore(d.turns, now, got);
    TakenOff(nd, nd', d, d', if got.Some? then [got.value] else []);
  }

  lemma StaysTaken(net: Net, a: Action, u: nat, d: Diary)
    requires u < |net.nodes| && InStep(net.nodes[u], d) && MailTaken(net.nodes[u], d)
    ensures u < |Step(net, a).nodes| && MailTaken(Step(net, a).nodes[u], Noted(net, a, u, d))
  {
    if Enabled(net, a) {
      var nd, nd', d' := net.nodes[u], Step(net, a).nodes[u], Noted(net, a, u, d);
      if a.u == u && a.LoopTop? {
        if d' != d.(top := d'.top) {
          TurnTakes(nd, nd', d, d', a.now, None);
        }
      } else if a.u == u && a.LoopBottom? {
        TurnTakes(nd, nd', d, d', d.top.value, if a.receive then Some(nd.inbox[0]) else None);
      } else if a.Relay? && Present(net.nodes[u]) {
        var m := net.nodes[a.u].outbox[0];
        assert Got(d.turns) + (nd.inbox + [m]) == (Got(d.turns) + nd.inbox) + [m];
      }
    }
  }

  /** In every run of the network each process is, at every moment, where its own loop is
      after the turns it has had; what it says is what that loop says, what the proxy passes
      on is that from when its link came up, and what it takes is what the proxy delivered. */
  lemma {:induction false} NodeIsMain(cs: seq<Config>, acts: seq<Action>, u: nat)
    requires u < |cs|
    ensures var net, d := Run(Start(cs), acts), Kept(cs, acts, u);
            |net.nodes| == |cs| && net.nodes[u].cfg == cs[u]
            && InStep(net.nodes[u], d) && WordsPassedOn(net.nodes[u], d) && MailTaken(net.nodes[u], d)
  {
    if acts != [] {
      var pre, a := acts[..|acts| - 1], acts[|acts| - 1];
      NodeIsMain(cs, pre, u);
      var net, d := Run(Start(cs), pre), Kept(cs, pre, u);
      StepGrows(net, a);
      StaysInStep(net, a, u, d);
      StaysPassedOn(net, a, u, d);
      StaysTaken(net, a, u, d);
    }
  }

  /** So the map of a process of the network is decided by what the proxy has delivered to
      it and it has taken. */
  lemma MapInNetwork(cs: seq<Config>, acts: seq<Action>, u: nat, p: Uuid)
    requires u < |cs|
    ensures var net, d := Run(Start(cs), acts), Kept(cs, acts, u);
            |net.nodes| == |cs|
            && (net.nodes[u].local.running ==> Got(d.turns) <= d.mail && (p in net.nodes[u].local.peers <==> After(false, Got(d.turns), p)))
  {
    NodeIsMain(cs, acts, u);
    var net, d := Run(Start(cs), acts), Kept(cs, acts, u);
    if net.nodes[u].local.running {
      RunningIff(cs[u], d.turns);
      MapIsLastWord(cs[u], d.turns, |d.turns|, p);
      assert d.turns[..|d.turns|] == d.turns;
    }
  }
}
