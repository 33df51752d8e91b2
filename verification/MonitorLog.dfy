/** Which events each monitor session carries, told from the calls alone. */
module MonitorLog {
  import opened Wrappers
  import opened MonitorSession

  /** Call i opens a session: a request for an inproc address whose socket is created, by a
      context that was not stopped. */
  predicate Opens(ops: seq<Op>, i: nat)
    requires i < |ops|
  {
    ops[i].Monitor? && ops[i].request.Inproc? && ops[i].request.created && ProcessStop !in ops[..i]
  }

  /** How many sessions the calls open; the number of the next one. */
  function Opened(ops: seq<Op>): nat {
    if ops == [] then 0 else Opened(ops[..|ops| - 1]) + if Opens(ops, |ops| - 1) then 1 else 0
  }

  predicate StartsWell(req: Request)
    requires req.Inproc?
  {
    req.lingerSet && req.bound
  }

  /** A call that ends whatever session is live, whether or not it goes on to start one. */
  predicate Ends(op: Op) {
    op.ProcessStop? || op.Destroy? || (op.Monitor? && !op.request.BadAddress?)
  }

  ghost predicate StillLive(since: seq<Op>) {
    forall i :: 0 <= i < |since| ==> !Ends(since[i])
  }

  /** What a session with this mask carries, of the calls since it started: the kinds
      raised that the mask selects, up to the call that ends it, and then MONITOR_STOPPED if
      the mask selects that. */
  ghost function Carried(mask: bv32, since: seq<Op>): seq<bv32> {
    if since == [] then [] else
      var pre, op := since[..|since| - 1], since[|since| - 1];
      if !StillLive(pre) then Carried(mask, pre)
      else Carried(mask, pre) + Sent(mask, op)
  }

  /** What one call sends to a live session with this mask. */
  function Sent(mask: bv32, op: Op): seq<bv32> {
    if op.Raise? && Selects(mask, op.kind) then [op.kind]
    else if Ends(op) && Selects(mask, MONITOR_STOPPED) then [MONITOR_STOPPED]
    else []
  }

  /** The events of one session, in order. */
  function EventsOf(log: seq<Emission>, session: nat): seq<bv32> {
    if log == [] then [] else
      var last := log[|log| - 1];
      EventsOf(log[..|log| - 1], session) + (if last.session == session then [last.kind] else [])
  }

  // ---- proof

  lemma {:induction false} NoEvents(log: seq<Emission>, session: nat)
    requires forall i :: 0 <= i < |log| ==> log[i].session != session
    ensures EventsOf(log, session) == []
  {
    if log != [] {
      NoEvents(log[..|log| - 1], session);
    }
  }

  lemma OneMore(log: seq<Emission>, e: Emission, session: nat)
    ensures EventsOf(log + [e], session) == EventsOf(log, session) + (if e.session == session then [e.kind] else [])
  {
    assert (log + [e])[..|log|] == log;
  }

  /** What closing the live session, if there is one, adds. */
  lemma StopAdds(m: Mon, announce: bool, session: nat)
    ensures EventsOf(StopMonitor(m, announce).log, session) == EventsOf(m.log, session) +
              (if m.monitorSocket == Some(session) && announce && Selects(m.monitorEvents, MONITOR_STOPPED) then [MONITOR_STOPPED] else [])
    ensures StopMonitor(m, announce).monitorSocket.None?
  {
    if m.monitorSocket.Some? {
      OneMore(m.log, Emission(m.monitorSocket.value, MONITOR_STOPPED), session);
    }
    assert EventsOf(m.log, session) + [] == EventsOf(m.log, session);
  }

  lemma StartAdds(m: Mon, req: Request, session: nat)
    requires req.Inproc? && session < |m.masks|
    ensures var m' := StartMonitor(m, req.events, req.created, req.lingerSet, req.bound);
            && EventsOf(m'.log, session) == EventsOf(StopMonitor(m, true).log, session)
            && m'.monitorSocket != Some(session) && session < |m'.masks| && m'.masks[session] == m.masks[session]
  {
    var m1 := StopMonitor(m, true);
    var m2 := m1.(monitorEvents := req.events, monitorSocket := Some(|m1.masks|), masks := m1.masks + [req.events]);
    StopAdds(m, true, session);
    StopAdds(m2, false, session);
  }

  /** Session k, and what it has carried. */
  ghost predicate At(m: Mon, k: nat, mask: bv32, carried: seq<bv32>, live: bool) {
    && k < |m.masks| && m.masks[k] == mask && EventsOf(m.log, k) == carried
    && (m.monitorSocket == Some(k) <==> live) && (live ==> m.monitorEvents == mask)
    && (m.ctxTerminated ==> m.monitorSocket.None?)
  }

  lemma RaiseAdds(m: Mon, kind: EventKind, k: nat, mask: bv32, carried: seq<bv32>, live: bool)
    requires At(m, k, mask, carried, live)
    ensures At(Step(m, Raise(kind)), k, mask, if live then carried + Sent(mask, Raise(kind)) else carried, live)
  {
    if m.monitorSocket.Some? {
      OneMore(m.log, Emission(m.monitorSocket.value, kind), k);
    }
    assert carried + [] == carried;
  }

  /** What one call adds to a session that is open already. */
  lemma StepAdds(m: Mon, op: Op, k: nat, mask: bv32, carried: seq<bv32>, live: bool)
    requires At(m, k, mask, carried, live)
    ensures At(Step(m, op), k, mask, if live then carried + Sent(mask, op) else carried, live && !Ends(op))
  {
    assert carried + [] == carried;
    if op.Raise? {
      RaiseAdds(m, op.kind, k, mask, carried, live);
    } else {
      StopAdds(m, true, k);
      if op.Monitor? && op.request.Inproc? {
        StartAdds(m, op.request, k);
      }
    }
  }

  lemma {:induction false} Sessions(ops: seq<Op>)
    ensures var m := Run(IDLE, ops);
            |m.masks| == Opened(ops) && (m.ctxTerminated <==> ProcessStop in ops) && (m.ctxTerminated ==> m.monitorSocket.None?)
  {
    if ops != [] {
      var pre, op := ops[..|ops| - 1], ops[|ops| - 1];
      Sessions(pre);
      assert ops == pre + [op];
      StopAdds(Run(IDLE, pre), true, 0);
    }
  }

  /** The call that opens a session. */
  lemma StepOpens(m: Mon, req: Request)
    requires Inv(m) && !m.ctxTerminated && req.Inproc? && req.created
    ensures At(Step(m, Monitor(req)), |m.masks|, req.events, [], StartsWell(req))
  {
    NoEvents(m.log, |m.masks|);
    StopAdds(m, true, |m.masks|);
    var m1 := StopMonitor(m, true);
    var m2 := m1.(monitorEvents := req.events, monitorSocket := Some(|m1.masks|), masks := m1.masks + [req.events]);
    StopAdds(m2, false, |m.masks|);
  }

  /** Session k, opened with req, after the calls since. */
  ghost predicate Told(m: Mon, k: nat, req: Request, since: seq<Op>)
    requires req.Inproc?
  {
    At(m, k, req.events, if StartsWell(req) then Carried(req.events, since) else [], StartsWell(req) && StillLive(since))
  }

  lemma LiveOneMore(since: seq<Op>, op: Op)
    ensures StillLive(since + [op]) <==> StillLive(since) && !Ends(op)
  {
    var all := since + [op];
    assert forall i :: 0 <= i < |since| ==> since[i] == all[i];
    assert all[|since|] == op;
  }

  lemma ToldStep(m: Mon, k: nat, req: Request, since: seq<Op>, op: Op)
    requires req.Inproc? && Told(m, k, req, since)
    ensures Told(Step(m, op), k, req, since + [op])
  {
    var carried := if StartsWell(req) then Carried(req.events, since) else [];
    StepAdds(m, op, k, req.events, carried, StartsWell(req) && StillLive(since));
    LiveOneMore(since, op);
    assert (since + [op])[..|since|] == since;
  }

  /** Every session carries exactly what was raised for it while it was live, and its end if
      it asked for that: a session whose start fails carries nothing. */
  lemma {:induction false} SessionCarries(ops: seq<Op>, i: nat)
    requires i < |ops| && Opens(ops, i)
    ensures Told(Run(IDLE, ops), Opened(ops[..i]), ops[i].request, ops[i + 1..])
  {
    var pre, op := ops[..|ops| - 1], ops[|ops| - 1];
    if i == |pre| {
      RunKeepsInv(pre);
      Sessions(pre);
      StepOpens(Run(IDLE, pre), op.request);
      assert ops[i + 1..] == [];
    } else {
      assert pre[..i] == ops[..i] && ops[i + 1..] == pre[i + 1..] + [op];
      SessionCarries(pre, i);
      ToldStep(Run(IDLE, pre), Opened(ops[..i]), ops[i].request, pre[i + 1..], op);
    }
  }

  lemma {:induction false} CarriedEnd(mask: bv32, since: seq<Op>)
    ensures MONITOR_STOPPED in Carried(mask, since) <==> !StillLive(since) && Selects(mask, MONITOR_STOPPED)
  {
    if since != [] {
      var pre, op := since[..|since| - 1], since[|since| - 1];
      CarriedEnd(mask, pre);
      LiveOneMore(pre, op);
      assert since == pre + [op];
    }
  }

  /** MONITOR_STOPPED is sent iff the session had started well, asked for it, and something
      ended it. */
  lemma StoppedIff(ops: seq<Op>, i: nat)
    requires i < |ops| && Opens(ops, i)
    ensures MONITOR_STOPPED in EventsOf(Run(IDLE, ops).log, Opened(ops[..i]))
       <==> StartsWell(ops[i].request) && Selects(ops[i].request.events, MONITOR_STOPPED) && !StillLive(ops[i + 1..])
  {
    SessionCarries(ops, i);
    CarriedEnd(ops[i].request.events, ops[i + 1..]);
  }

  /** And there are no other sessions than those opened. */
  lemma NoOtherSession(ops: seq<Op>)
    ensures var m := Run(IDLE, ops);
            |m.masks| == Opened(ops) && forall i :: 0 <= i < |m.log| ==> m.log[i].session < Opened(ops)
  {
    Sessions(ops);
    RunKeepsInv(ops);
  }
}
