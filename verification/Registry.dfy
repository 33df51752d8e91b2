/** The context's table of inproc addresses and the sockets' lists of inproc connections:
    what each step does to them, and who can be found when. */
module Registry {
  import opened Wrappers
  import opened SocketState
  import opened Mailbox
  import opened Inproc

  // ---- the table

  /** What the thread of a.u ends in this step: the address of its own term_endpoint call, or
      that of a pending request whose reading has just succeeded. */
  ghost function Acts(w: World, a: Action): Option<Target>
    requires Enabled(w, a)
  {
    var s := w.members[a.u].sock;
    match a
    case End(_, target) => Some(target)
    case Recv(_, signal) =>
      if !signal && s.mailbox == [] && s.ending != [] && !s.ctxTerminated then Some(s.ending[|s.ending| - 1]) else None
    case _ => None
  }

  ghost predicate ActsOn(w: World, a: Action, x: Addr)
    requires Enabled(w, a)
  {
    Acts(w, a).Some? && Acts(w, a).value.Inproc? && Acts(w, a).value.addr == x
  }

  /** The step takes the address out of the table: its owner ends it, or closes. */
  ghost predicate Releases(w: World, a: Action, x: Addr)
    requires Enabled(w, a)
  {
    x in w.registry && w.registry[x] == a.u && (a.Close? || ActsOn(w, a, x))
  }

  /** Every step, address by address: a bind enters it, its owner's term_endpoint and close
      take it out, and nothing else changes it. */
  lemma RegistryExact(w: World, a: Action, x: Addr)
    requires Enabled(w, a)
    ensures var w' := Step(w, a);
            && (x in w'.registry <==> a == Register(a.u, x) || (x in w.registry && !Releases(w, a, x)))
            && (x in w'.registry ==> w'.registry[x] == if a == Register(a.u, x) then a.u else w.registry[x])
  {
  }

  /** What a term_endpoint call does with an inproc address bound here. */
  lemma EndUnregisters(w: World, u: nat, x: Addr, flag: bool)
    requires Enabled(w, End(u, Inproc(x, flag))) && x in w.registry && w.registry[x] == u
    ensures var w' := Step(w, End(u, Inproc(x, flag)));
            && w'.registry == w.registry - {x} && w'.members == w.members[u := w.members[u].(phase := Idle)]
  {
  }

  /** A pending request for it does the same when its reading succeeds, and nothing when a
      signal or a stop comes first. */
  lemma RequestUnregisters(w: World, u: nat, x: Addr, flag: bool, signal: bool)
    requires Enabled(w, Recv(u, signal)) && x in w.registry && w.registry[x] == u
    requires var s := w.members[u].sock; Fails(s, signal) && s.ending != [] && s.ending[|s.ending| - 1] == Inproc(x, flag)
    ensures var w', s := Step(w, Recv(u, signal)), w.members[u].sock;
            w'.registry == if signal || s.ctxTerminated then w.registry else w.registry - {x}
  {
  }

  /** An address that is not in the table cannot be found until somebody binds to it. */
  lemma {:induction false} NotFound(w: World, acts: seq<Action>, x: Addr, v: nat)
    requires x !in w.registry && forall u: nat :: Register(u, x) !in acts
    ensures x !in Run(w, acts).registry && !Enabled(Run(w, acts), Find(v, x))
  {
    if acts != [] {
      var pre, a := acts[..|acts| - 1], acts[|acts| - 1];
      assert a in acts && forall b :: b in pre ==> b in acts;
      NotFound(w, pre, x, v);
      if Enabled(Run(w, pre), a) {
        RegistryExact(Run(w, pre), a, x);
      }
    }
  }

  datatype Event = Enters(u: nat) | Leaves | Other

  ghost function EventOf(w: World, a: Action, x: Addr): Event {
    if !Enabled(w, a) then Other
    else if a == Register(a.u, x) then Enters(a.u)
    else if Releases(w, a, x) then Leaves
    else Other
  }

  /** What each action of a run does to x. */
  ghost function Events(w: World, acts: seq<Action>, x: Addr): seq<Event> {
    if acts == [] then [] else
      var pre := acts[..|acts| - 1];
      Events(w, pre, x) + [EventOf(Run(w, pre), acts[|acts| - 1], x)]
  }

  /** The last time x was entered it was by u, and it has not left since. */
  ghost predicate Entered(es: seq<Event>, u: nat) {
    exists i :: 0 <= i < |es| && es[i] == Enters(u) && forall j :: i < j < |es| ==> es[j] == Other
  }

  lemma EnteredLast(es: seq<Event>, e: Event, u: nat)
    ensures Entered(es + [e], u) <==> e == Enters(u) || (e == Other && Entered(es, u))
  {
    var all := es + [e];
    if e == Enters(u) {
      assert all[|es|] == Enters(u);
    } else if e == Other && Entered(es, u) {
      var i :| 0 <= i < |es| && es[i] == Enters(u) && forall j :: i < j < |es| ==> es[j] == Other;
      assert all[i] == Enters(u);
    }
    if Entered(all, u) && e != Enters(u) {
      var i :| 0 <= i < |all| && all[i] == Enters(u) && forall j :: i < j < |all| ==> all[j] == Other;
      assert es[i] == Enters(u) && all[|es|] == Other;
      assert forall j :: i < j < |es| ==> es[j] == all[j];
    }
  }

  /** Who is found: in every reachable state an address leads to u iff u bound to it, and
      has neither ended nor closed since -- whatever the other sockets do. */
  lemma {:induction false} FoundIff(opts: seq<Options>, acts: seq<Action>, x: Addr, u: nat)
    ensures var w := Run(Start(opts), acts);
            (x in w.registry && w.registry[x] == u) <==> Entered(Events(Start(opts), acts, x), u)
  {
    if acts != [] {
      var pre, a := acts[..|acts| - 1], acts[|acts| - 1];
      var w := Run(Start(opts), pre);
      FoundIff(opts, pre, x, u);
      EnteredLast(Events(Start(opts), pre, x), EventOf(w, a, x), u);
      if Enabled(w, a) {
        RegistryExact(w, a, x);
      }
    }
  }
}
