// Several nodes, each with its cache of registered applications and its replica
// of the router table. Registering and expiring broadcast events; every node
// receives the events of one origin in the order they were sent, those of
// different origins in any order, and host failures at any time.
module Cluster {
  import opened Digests
  import opened Listings
  import opened Routers
  import opened Convergence
  import opened Fingerprints
  import opened Wrappers
  import opened Cache

  type Node = string
  type Apps = Store<MicroApp>

  datatype State = State(
    apps: map<Node, Apps>, tables: map<Node, Table>,
    // pending[(r, o)] holds what o has sent and r has not yet received.
    pending: map<(Node, Node), seq<Event>>,
    // A record of the run, kept by no node: hidden[(r, o)] holds the addresses
    // of o's applications that an event not sent by o has cleared from r's
    // table, and that o has not registered again since.
    hidden: map<(Node, Node), set<string>>)

  datatype Config = Config(md5: Hash, ttl: int)

  datatype Step =
    | Register(o: Node, app: MicroApp, now: int)
    | Refresh(o: Node, addr: string, now: int, later: int)
    | Sweep(o: Node, lo: int, hi: int, gone: seq<string>)  // in the order the handler visits them
    | Deliver(r: Node, o: Node)
    | Fail(r: Node, n: Node)  // Serf tells r that n failed or left

  function Unregistrations(addrs: seq<string>): seq<Event> {
    seq(|addrs|, i requires 0 <= i < |addrs| => Unregistered(addrs[i]))
  }

  predicate IsLocal(step: Step) {
    step.Register? || step.Refresh? || step.Sweep?
  }

  // What a step at a node does to its cache, and what it announces.
  function LocalApps(ttl: int, apps: Apps, step: Step): Apps {
    match step
    case Register(_, app, now) => Stored(apps, ttl, app.addr, app, 0, now)
    case Refresh(_, addr, now, later) => if Live(apps, addr, now) then Refreshed(apps, ttl, addr, 0, later) else apps
    case Sweep(_, _, _, gone) => apps - Names(gone)
    case _ => apps
  }

  function Announced(step: Step): seq<Event> {
    match step
    case Register(o, app, _) => [Registered(o, app.addr, app.providers)]
    case Sweep(_, _, _, gone) => Unregistrations(gone)
    case _ => []
  }

  function Broadcast(c: State, o: Node, es: seq<Event>): map<(Node, Node), seq<Event>> {
    map p | p in c.pending :: if p.1 == o then c.pending[p] + es else c.pending[p]
  }

  ghost predicate Registers(q: seq<Event>, a: string) {
    exists i :: 0 <= i < |q| && q[i].Registered? && q[i].addr == a
  }

  // The addresses of o that event e, not sent by o, clears from a table to which
  // o's events q are still on their way.
  ghost function Cleared(apps: Apps, q: seq<Event>, o: Node, e: Event): set<string> {
    set a | a in apps && Kills(e, o, a) && !Registers(q, a)
  }

  ghost predicate Enabled(c: State, step: Step) {
    match step
    case Register(o, _, _) => o in c.apps
    case Refresh(o, _, now, later) => o in c.apps && now <= later
    case Sweep(o, lo, hi, gone) => o in c.apps && Sweepable(c.apps[o], lo, hi, Names(gone))
    case Deliver(r, o) => r in c.tables && (r, o) in c.pending && c.pending[(r, o)] != []
    case Fail(r, _) => r in c.tables
  }

  // Node r applies e, which `sender` sent, or Serf if None.
  ghost function Applied(cfg: Config, c: State, r: Node, e: Event, sender: Option<Node>): State
    requires r in c.tables && forall p :: p in c.hidden ==> p in c.pending && p.1 in c.apps
  {
    c.(tables := c.tables[r := Apply(cfg.md5, c.tables[r], e)],
       hidden := map p | p in c.hidden ::
         if p.0 == r && sender != Some(p.1) then c.hidden[p] + Cleared(c.apps[p.1], c.pending[p], p.1, e)
         else c.hidden[p])
  }

  ghost predicate Wired(c: State) {
    && c.apps.Keys == c.tables.Keys
    && (forall r, o :: (r, o) in c.pending <==> r in c.tables && o in c.apps)
    && c.hidden.Keys == c.pending.Keys
  }

  ghost function Next(cfg: Config, c: State, step: Step): State
    requires Wired(c) && Enabled(c, step)
  {
    if IsLocal(step) then
      c.(apps := c.apps[step.o := LocalApps(cfg.ttl, c.apps[step.o], step)],
         pending := Broadcast(c, step.o, Announced(step)),
         hidden := map p | p in c.hidden ::
           if step.Register? && p.1 == step.o then c.hidden[p] - {step.app.addr} else c.hidden[p])
    else if step.Deliver? then
      var p := (step.r, step.o);
      Applied(cfg, c.(pending := c.pending[p := c.pending[p][1..]]), step.r, c.pending[p][0], Some(step.o))
    else Applied(cfg, c, step.r, HostFailed(step.n), None)
  }

  lemma NextIsWired(cfg: Config, c: State, step: Step)
    requires Wired(c) && Enabled(c, step)
    ensures Wired(Next(cfg, c, step)) && Next(cfg, c, step).apps.Keys == c.apps.Keys
  {}

  ghost predicate Initial(c: State) {
    && Wired(c)
    && (forall o :: o in c.apps ==> c.apps[o] == map[])
    && (forall r :: r in c.tables ==> c.tables[r] == map[])
    && (forall p :: p in c.pending ==> c.pending[p] == [])
    && (forall p :: p in c.hidden ==> c.hidden[p] == {})
  }

  ghost predicate Follows(cfg: Config, c: State, step: Step, c': State) {
    Wired(c) && Enabled(c, step) && c' == Next(cfg, c, step)
  }

  // A run: cs[0] is initial and each state follows from the one before.
  ghost predicate IsRun(cfg: Config, cs: seq<State>, steps: seq<Step>) {
    && |cs| == |steps| + 1 && Initial(cs[0])
    && forall i :: 0 <= i < |steps| ==> Follows(cfg, cs[i], steps[i], cs[i + 1])
  }

  // ---------------------------------------------------------------------

  predicate Provides(apps: Apps, s: string, a: string) {
    a in apps && s in apps[a].obj.providers
  }

  // An event that o may send.
  predicate SentBy(o: Node, e: Event) {
    !e.HostFailed? && (e.Registered? ==> e.node == o)
  }

  ghost predicate AllSentBy(o: Node, q: seq<Event>) {
    forall i :: 0 <= i < |q| ==> SentBy(o, q[i])
  }

  // Once r has received all that o has sent, it lists what o's cache provides,
  // but for the hidden addresses.
  ghost predicate CatchesUp(cfg: Config, apps: Apps, t: Table, q: seq<Event>, o: Node, hid: set<string>) {
    forall s, a :: Lists(Run(cfg.md5, t, q), s, o, a) <==> Provides(apps, s, a) && a !in hid
  }

  ghost predicate Unlisted(t: Table, o: Node, a: string) {
    forall s :: !Lists(t, s, o, a)
  }

  ghost predicate Linked(cfg: Config, apps: Apps, t: Table, q: seq<Event>, o: Node, hid: set<string>) {
    && AllSentBy(o, q)
    && (forall a :: a in hid ==> !Registers(q, a) && Unlisted(t, o, a))
    && CatchesUp(cfg, apps, t, q, o, hid)
  }

  // An event that does not register a at o adds no row for it, and one that
  // kills its rows leaves none.
  lemma StaysUnlisted(h: Hash, t: Table, e: Event, o: Node, a: string)
    requires !(e.Registered? && e.node == o && e.addr == a)
    requires Unlisted(t, o, a) || Kills(e, o, a)
    ensures Unlisted(Apply(h, t, e), o, a)
  {
    forall s ensures !Lists(Apply(h, t, e), s, o, a) {
      ApplyRows(h, t, e, s, o, a);
    }
  }

  ghost predicate Reachable(cfg: Config, t: Table, nodes: set<Node>) {
    Inv(cfg.md5, t) && forall s, n, a :: Lists(t, s, n, a) ==> n in nodes
  }

  ghost predicate LinkedAt(cfg: Config, c: State, p: (Node, Node))
    requires Wired(c) && p in c.pending
  {
    Linked(cfg, c.apps[p.1], c.tables[p.0], c.pending[p], p.1, c.hidden[p])
  }

  ghost predicate Consistent(cfg: Config, c: State) {
    && Wired(c)
    && (forall r :: r in c.tables ==> Reachable(cfg, c.tables[r], c.apps.Keys))
    && (forall p :: p in c.pending ==> LinkedAt(cfg, c, p))
  }

  // An event that o did not send changes only whose rows are hidden.
  lemma ForeignDelivery(cfg: Config, apps: Apps, t: Table, q: seq<Event>, o: Node, hid: set<string>, e: Event)
    requires Linked(cfg, apps, t, q, o, hid) && (e.Registered? ==> e.node != o)
    ensures Linked(cfg, apps, Apply(cfg.md5, t, e), q, o, hid + Cleared(apps, q, o, e))
  {
    var t', hid' := Apply(cfg.md5, t, e), hid + Cleared(apps, q, o, e);
    forall s, a ensures Lists(Run(cfg.md5, t', q), s, o, a) <==> Provides(apps, s, a) && a !in hid' {
      ClosedForm(cfg.md5, t, q, s, o, a);
      ClosedForm(cfg.md5, t', q, s, o, a);
      ApplyRows(cfg.md5, t, e, s, o, a);
      RegistrationsDecide(q, s, o, a);
    }
    forall a | a in hid' ensures Unlisted(t', o, a) {
      StaysUnlisted(cfg.md5, t, e, o, a);
    }
  }

  // A registration on its way overrides whatever the table holds; without one
  // nothing on its way can add a row.
  lemma RegistrationsDecide(q: seq<Event>, s: string, o: Node, a: string)
    ensures Registers(q, a) ==> !SurvivesFrom(q, 0, o, a)
    ensures !Registers(q, a) ==> !AddedAndKept(q, s, o, a)
  {}

  lemma OwnDelivery(cfg: Config, apps: Apps, t: Table, q: seq<Event>, o: Node, hid: set<string>)
    requires q != [] && Linked(cfg, apps, t, q, o, hid)
    ensures Linked(cfg, apps, Apply(cfg.md5, t, q[0]), q[1..], o, hid)
  {
    assert q == [q[0]] + q[1..];
    RunConcat(cfg.md5, t, [q[0]], q[1..]);
    assert [q[0]][..0] == [];
    assert Run(cfg.md5, t, [q[0]]) == Apply(cfg.md5, t, q[0]);
    forall a | a in hid ensures !Registers(q[1..], a) && Unlisted(Apply(cfg.md5, t, q[0]), o, a) {
      assert forall i :: 0 <= i < |q[1..]| ==> q[1..][i] == q[i + 1];
      assert !Registers(q, a);
      StaysUnlisted(cfg.md5, t, q[0], o, a);
    }
  }

  lemma Registering(cfg: Config, apps: Apps, t: Table, q: seq<Event>, step: Step, hid: set<string>)
    requires step.Register? && Linked(cfg, apps, t, q, step.o, hid)
    ensures Linked(cfg, LocalApps(cfg.ttl, apps, step), t, q + Announced(step), step.o, hid - {step.app.addr})
  {
    var o, e := step.o, Announced(step)[0];
    var apps', hid' := LocalApps(cfg.ttl, apps, step), hid - {step.app.addr};
    assert q + Announced(step) == q + [e] && (q + [e])[..|q|] == q;
    forall s, a ensures Lists(Run(cfg.md5, t, q + [e]), s, o, a) <==> Provides(apps', s, a) && a !in hid' {
      ApplyRows(cfg.md5, Run(cfg.md5, t, q), e, s, o, a);
    }
  }

  lemma Sweeping(cfg: Config, apps: Apps, t: Table, q: seq<Event>, step: Step, hid: set<string>)
    requires step.Sweep? && Linked(cfg, apps, t, q, step.o, hid)
    ensures Linked(cfg, LocalApps(cfg.ttl, apps, step), t, q + Announced(step), step.o, hid)
  {
    var o, gone, us := step.o, step.gone, Unregistrations(step.gone);
    RunConcat(cfg.md5, t, q, us);
    forall s, a
      ensures Lists(Run(cfg.md5, t, q + us), s, o, a) <==> Provides(apps - Names(gone), s, a) && a !in hid
    {
      ClosedForm(cfg.md5, Run(cfg.md5, t, q), us, s, o, a);
      assert SurvivesFrom(us, 0, o, a) <==> a !in gone by {
        forall i | 0 <= i < |gone| ensures Kills(us[i], o, a) <==> gone[i] == a {}
      }
    }
  }

  lemma LocalLink(cfg: Config, apps: Apps, t: Table, q: seq<Event>, step: Step, hid: set<string>)
    requires IsLocal(step) && Linked(cfg, apps, t, q, step.o, hid)
    ensures Linked(cfg, LocalApps(cfg.ttl, apps, step), t, q + Announced(step), step.o,
                   if step.Register? then hid - {step.app.addr} else hid)
  {
    match step
    case Register(_, _, _) => Registering(cfg, apps, t, q, step, hid);
    case Sweep(_, _, _, _) => Sweeping(cfg, apps, t, q, step, hid);
    case Refresh(_, _, _, _) =>
      assert q + [] == q;
      assert forall s, a :: Provides(LocalApps(cfg.ttl, apps, step), s, a) <==> Provides(apps, s, a);
  }

  lemma LocalKeepsConsistent(cfg: Config, c: State, step: Step)
    requires Consistent(cfg, c) && Enabled(c, step) && IsLocal(step)
    ensures Consistent(cfg, Next(cfg, c, step))
  {
    var c' := Next(cfg, c, step);
    assert c'.apps.Keys == c.apps.Keys;
    assert Wired(c');
    forall r | r in c'.tables ensures Reachable(cfg, c'.tables[r], c'.apps.Keys) {
      assert Reachable(cfg, c.tables[r], c.apps.Keys);
    }
    forall p | p in c'.pending ensures LinkedAt(cfg, c', p) {
      assert LinkedAt(cfg, c, p);
      if p.1 == step.o {
        LocalLink(cfg, c.apps[p.1], c.tables[p.0], c.pending[p], step, c.hidden[p]);
      }
    }
  }

  lemma ApplyStaysReachable(cfg: Config, t: Table, e: Event, nodes: set<Node>)
    requires Reachable(cfg, t, nodes) && (e.Registered? ==> e.node in nodes)
    ensures Reachable(cfg, Apply(cfg.md5, t, e), nodes)
  {
    var t' := Apply(cfg.md5, t, e);
    ApplyKeepsInv(cfg.md5, t, e);
    forall s, n, a | Lists(t', s, n, a) ensures n in nodes {
      ApplyRows(cfg.md5, t, e, s, n, a);
    }
  }

  lemma FailKeepsConsistent(cfg: Config, c: State, step: Step)
    requires Consistent(cfg, c) && Enabled(c, step) && step.Fail?
    ensures Consistent(cfg, Next(cfg, c, step))
  {
    var c', e, r := Next(cfg, c, step), HostFailed(step.n), step.r;
    ApplyStaysReachable(cfg, c.tables[r], e, c.apps.Keys);
    assert Wired(c');
    forall r' | r' in c'.tables ensures Reachable(cfg, c'.tables[r'], c'.apps.Keys) {
      assert Reachable(cfg, c.tables[r'], c.apps.Keys);
    }
    forall p | p in c'.pending ensures LinkedAt(cfg, c', p) {
      assert LinkedAt(cfg, c, p);
      if p.0 == r {
        ForeignDelivery(cfg, c.apps[p.1], c.tables[r], c.pending[p], p.1, c.hidden[p], e);
      }
    }
  }

  lemma DeliverLinks(cfg: Config, c: State, step: Step, p: (Node, Node))
    requires Consistent(cfg, c) && Enabled(c, step) && step.Deliver? && p in c.pending
    ensures var c' := Next(cfg, c, step);
            Linked(cfg, c'.apps[p.1], c'.tables[p.0], c'.pending[p], p.1, c'.hidden[p])
  {
    var r, o := step.r, step.o;
    assert LinkedAt(cfg, c, (r, o)) && LinkedAt(cfg, c, p);
    if p == (r, o) {
      OwnDelivery(cfg, c.apps[o], c.tables[r], c.pending[p], o, c.hidden[p]);
    } else if p.0 == r {
      ForeignDelivery(cfg, c.apps[p.1], c.tables[r], c.pending[p], p.1, c.hidden[p], c.pending[(r, o)][0]);
    }
  }

  lemma DeliverStaysReachable(cfg: Config, c: State, step: Step, r: Node)
    requires Consistent(cfg, c) && Enabled(c, step) && step.Deliver? && r in c.tables
    ensures Reachable(cfg, Next(cfg, c, step).tables[r], c.apps.Keys)
  {
    assert Reachable(cfg, c.tables[r], c.apps.Keys);
    if r == step.r {
      assert LinkedAt(cfg, c, (r, step.o));
      var e := c.pending[(r, step.o)][0];
      assert SentBy(step.o, e);
      ApplyStaysReachable(cfg, c.tables[r], e, c.apps.Keys);
    }
  }

  lemma DeliverKeepsConsistent(cfg: Config, c: State, step: Step)
    requires Consistent(cfg, c) && Enabled(c, step) && step.Deliver?
    ensures Consistent(cfg, Next(cfg, c, step))
  {
    var c' := Next(cfg, c, step);
    assert Wired(c');
    forall r | r in c'.tables ensures Reachable(cfg, c'.tables[r], c'.apps.Keys) {
      DeliverStaysReachable(cfg, c, step, r);
    }
    forall p | p in c'.pending ensures LinkedAt(cfg, c', p) {
      DeliverLinks(cfg, c, step, p);
    }
  }

  lemma NextKeepsConsistent(cfg: Config, c: State, step: Step)
    requires Consistent(cfg, c) && Enabled(c, step)
    ensures Consistent(cfg, Next(cfg, c, step))
  {
    if IsLocal(step) {
      LocalKeepsConsistent(cfg, c, step);
    } else if step.Deliver? {
      DeliverKeepsConsistent(cfg, c, step);
    } else {
      FailKeepsConsistent(cfg, c, step);
    }
  }

  lemma InitialIsConsistent(cfg: Config, c: State)
    requires Initial(c)
    ensures Consistent(cfg, c)
  {
    forall s, n, a ensures !Lists(map[], s, n, a) {}
    forall p | p in c.pending ensures LinkedAt(cfg, c, p) {
      assert Run(cfg.md5, c.tables[p.0], c.pending[p]) == map[];
    }
  }

  lemma {:induction false} RunsStayConsistent(cfg: Config, cs: seq<State>, steps: seq<Step>, n: nat)
    requires IsRun(cfg, cs, steps) && n <= |steps|
    ensures Consistent(cfg, cs[n])
  {
    if n == 0 {
      InitialIsConsistent(cfg, cs[0]);
    } else {
      RunsStayConsistent(cfg, cs, steps, n - 1);
      assert Follows(cfg, cs[n - 1], steps[n - 1], cs[n]);
      NextKeepsConsistent(cfg, cs[n - 1], steps[n - 1]);
    }
  }

  // ---------------------------------------------------------------------
  // When a table loses an application.

  ghost predicate Hidden(c: State, r: Node, o: Node, a: string) {
    (r, o) in c.hidden && a in c.hidden[(r, o)]
  }

  // The step takes o's application at a from r: r applies an event that o did
  // not send and that clears a, while no registration of a is on its way from o.
  ghost predicate Loses(c: State, step: Step, r: Node, o: Node, a: string) {
    && (r, o) in c.pending && o in c.apps
    && match step
       case Deliver(r', o') =>
         && r' == r && o' != o && (r, o') in c.pending && c.pending[(r, o')] != []
         && a in Cleared(c.apps[o], c.pending[(r, o)], o, c.pending[(r, o')][0])
       case Fail(r', n) => r' == r && a in Cleared(c.apps[o], c.pending[(r, o)], o, HostFailed(n))
       case _ => false
  }

  predicate IsRegistration(step: Step, o: Node, a: string) {
    step.Register? && step.o == o && step.app.addr == a
  }

  lemma HiddenChangesLocally(cfg: Config, c: State, step: Step, r: Node, o: Node, a: string)
    requires Wired(c) && Enabled(c, step) && IsLocal(step)
    ensures Hidden(Next(cfg, c, step), r, o, a) <==> Hidden(c, r, o, a) && !IsRegistration(step, o, a)
  {}

  lemma HiddenChanges(cfg: Config, c: State, step: Step, r: Node, o: Node, a: string)
    requires Wired(c) && Enabled(c, step)
    ensures Hidden(Next(cfg, c, step), r, o, a) <==>
            Loses(c, step, r, o, a) || (Hidden(c, r, o, a) && !IsRegistration(step, o, a))
  {
    if IsLocal(step) {
      HiddenChangesLocally(cfg, c, step, r, o, a);
    }
  }

  lemma NothingHiddenAtFirst(c: State, r: Node, o: Node, a: string)
    requires Initial(c)
    ensures !Hidden(c, r, o, a)
  {}

  // By the n-th state r has lost o's application at a: a step took it, and o has
  // not registered it since.
  ghost predicate Lost(cs: seq<State>, steps: seq<Step>, n: nat, r: Node, o: Node, a: string)
    requires n <= |steps| && |cs| == |steps| + 1
  {
    exists i :: 0 <= i < n && Loses(cs[i], steps[i], r, o, a) && NotRegisteredAfter(steps, i, n, o, a)
  }

  predicate NotRegisteredAfter(steps: seq<Step>, i: nat, n: nat, o: Node, a: string)
    requires n <= |steps|
  {
    forall j :: i < j < n ==> !IsRegistration(steps[j], o, a)
  }

  lemma LostChanges(cs: seq<State>, steps: seq<Step>, n: nat, r: Node, o: Node, a: string)
    requires n < |steps| && |cs| == |steps| + 1
    ensures Lost(cs, steps, n + 1, r, o, a) <==>
            Loses(cs[n], steps[n], r, o, a) || (Lost(cs, steps, n, r, o, a) && !IsRegistration(steps[n], o, a))
  {
    forall i: nat | i < n
      ensures NotRegisteredAfter(steps, i, n + 1, o, a) <==>
              NotRegisteredAfter(steps, i, n, o, a) && !IsRegistration(steps[n], o, a) {}
    assert NotRegisteredAfter(steps, n, n + 1, o, a);
  }

  lemma {:induction false} HiddenIffLost(cfg: Config, cs: seq<State>, steps: seq<Step>, n: nat,
                                         r: Node, o: Node, a: string)
    requires IsRun(cfg, cs, steps) && n <= |steps|
    ensures Hidden(cs[n], r, o, a) <==> Lost(cs, steps, n, r, o, a)
  {
    if n == 0 {
      NothingHiddenAtFirst(cs[0], r, o, a);
    } else {
      HiddenIffLost(cfg, cs, steps, n - 1, r, o, a);
      assert Follows(cfg, cs[n - 1], steps[n - 1], cs[n]);
      HiddenChanges(cfg, cs[n - 1], steps[n - 1], r, o, a);
      LostChanges(cs, steps, n - 1, r, o, a);
    }
  }

  // At every moment, caught up or not, a table lists nothing that it has lost:
  // refreshing, or anything but registering again, does not bring it back.
  lemma LostUntilRegisteredAgain(cfg: Config, cs: seq<State>, steps: seq<Step>, n: nat, r: Node, o: Node, a: string)
    requires IsRun(cfg, cs, steps) && n <= |steps| && Lost(cs, steps, n, r, o, a)
    ensures r in cs[n].tables && Unlisted(cs[n].tables[r], o, a)
  {
    HiddenIffLost(cfg, cs, steps, n, r, o, a);
    RunsStayConsistent(cfg, cs, steps, n);
    assert LinkedAt(cfg, cs[n], (r, o));
  }

  // ---------------------------------------------------------------------
  // What the tables say about the caches.

  // Node r has received everything sent so far.
  ghost predicate CaughtUp(c: State, r: Node) {
    r in c.tables && forall o :: (r, o) in c.pending ==> c.pending[(r, o)] == []
  }

  ghost predicate Cached(c: State, s: string, n: Node, a: string) {
    n in c.apps && Provides(c.apps[n], s, a)
  }

  // Main theorem, for all runs, with host failures and addresses registered at
  // several nodes: a node that has received everything lists exactly the
  // applications in the caches of all nodes, each at its node and under each
  // service it provides, except those it has lost.
  lemma CaughtUpTablesListTheCaches(cfg: Config, cs: seq<State>, steps: seq<Step>, r: Node)
    requires IsRun(cfg, cs, steps) && CaughtUp(cs[|steps|], r)
    ensures var c := cs[|steps|];
            forall s, n, a :: Lists(c.tables[r], s, n, a) <==> Cached(c, s, n, a) && !Lost(cs, steps, |steps|, r, n, a)
  {
    RunsStayConsistent(cfg, cs, steps, |steps|);
    var c := cs[|steps|];
    forall s, n, a
      ensures Lists(c.tables[r], s, n, a) <==> Cached(c, s, n, a) && !Lost(cs, steps, |steps|, r, n, a)
    {
      HiddenIffLost(cfg, cs, steps, |steps|, r, n, a);
      if n in c.apps {
        assert LinkedAt(cfg, c, (r, n));
        assert Run(cfg.md5, c.tables[r], []) == c.tables[r];
      }
    }
  }

  // So table and caches agree iff no application that provides anything was lost.
  lemma TableMatchesCachesIffNothingLost(cfg: Config, cs: seq<State>, steps: seq<Step>, r: Node)
    requires IsRun(cfg, cs, steps) && CaughtUp(cs[|steps|], r)
    ensures var c := cs[|steps|];
            (forall s, n, a :: Lists(c.tables[r], s, n, a) <==> Cached(c, s, n, a)) <==>
            (forall s, n, a :: Cached(c, s, n, a) ==> !Lost(cs, steps, |steps|, r, n, a))
  {
    CaughtUpTablesListTheCaches(cfg, cs, steps, r);
  }

  // And two nodes that have caught up agree iff both have lost the same ones.
  lemma CaughtUpTablesAgreeIff(cfg: Config, cs: seq<State>, steps: seq<Step>, r: Node, r': Node)
    requires IsRun(cfg, cs, steps) && CaughtUp(cs[|steps|], r) && CaughtUp(cs[|steps|], r')
    ensures var c := cs[|steps|];
            Agree(c.tables[r], c.tables[r']) <==>
            forall s, n, a :: Cached(c, s, n, a) ==>
              (Lost(cs, steps, |steps|, r, n, a) <==> Lost(cs, steps, |steps|, r', n, a))
  {
    var c := cs[|steps|];
    RunsStayConsistent(cfg, cs, steps, |steps|);
    CaughtUpTablesListTheCaches(cfg, cs, steps, r);
    CaughtUpTablesListTheCaches(cfg, cs, steps, r');
    AgreeIffSameRows(cfg.md5, c.tables[r], c.tables[r']);
  }

  // When no host fails and every address has one home node, nothing is ever lost.
  ghost predicate QueueAtHome(q: seq<Event>, o: Node, home: string -> Node) {
    forall i :: 0 <= i < |q| ==> !q[i].HostFailed? && home(q[i].addr) == o
  }

  ghost predicate CacheAtHome(apps: Apps, o: Node, home: string -> Node) {
    forall a :: a in apps ==> home(a) == o
  }

  ghost predicate AtHome(c: State, home: string -> Node) {
    && Wired(c)
    && (forall o :: o in c.apps ==> CacheAtHome(c.apps[o], o, home))
    && (forall p :: p in c.pending ==> QueueAtHome(c.pending[p], p.1, home))
  }

  lemma AnnouncedAtHome(cfg: Config, apps: Apps, step: Step, home: string -> Node)
    requires IsLocal(step) && CacheAtHome(apps, step.o, home)
    requires step.Register? ==> home(step.app.addr) == step.o
    requires step.Sweep? ==> Names(step.gone) <= apps.Keys
    ensures CacheAtHome(LocalApps(cfg.ttl, apps, step), step.o, home)
    ensures QueueAtHome(Announced(step), step.o, home)
  {
    if step.Sweep? {
      forall i | 0 <= i < |step.gone| ensures home(step.gone[i]) == step.o {
        assert step.gone[i] in Names(step.gone);
      }
    }
  }

  lemma QueueExtends(q: seq<Event>, es: seq<Event>, o: Node, home: string -> Node)
    requires QueueAtHome(q, o, home) && QueueAtHome(es, o, home)
    ensures QueueAtHome(q + es, o, home)
  {}

  lemma LocalStaysAtHome(cfg: Config, c: State, step: Step, home: string -> Node)
    requires AtHome(c, home) && Enabled(c, step) && IsLocal(step)
    requires step.Register? ==> home(step.app.addr) == step.o
    ensures AtHome(Next(cfg, c, step), home)
  {
    var c' := Next(cfg, c, step);
    AnnouncedAtHome(cfg, c.apps[step.o], step, home);
    assert c'.apps.Keys == c.apps.Keys;
    forall p | p in c'.pending ensures QueueAtHome(c'.pending[p], p.1, home) {
      assert QueueAtHome(c.pending[p], p.1, home);
      if p.1 == step.o {
        QueueExtends(c.pending[p], Announced(step), step.o, home);
      }
    }
  }

  lemma ForeignClearsNothing(apps: Apps, q: seq<Event>, o: Node, e: Event, home: string -> Node)
    requires CacheAtHome(apps, o, home) && !e.HostFailed? && home(e.addr) != o
    ensures Cleared(apps, q, o, e) == {}
  {}

  lemma DeliveredQueuesStayAtHome(cfg: Config, c: State, step: Step, home: string -> Node)
    requires AtHome(c, home) && Enabled(c, step) && step.Deliver?
    ensures var c' := Next(cfg, c, step); forall p :: p in c'.pending ==> QueueAtHome(c'.pending[p], p.1, home)
  {
    var c', q := Next(cfg, c, step), c.pending[(step.r, step.o)];
    assert QueueAtHome(q, step.o, home);
    assert QueueAtHome(q[1..], step.o, home);
    forall p | p in c'.pending ensures QueueAtHome(c'.pending[p], p.1, home) {
      assert QueueAtHome(c.pending[p], p.1, home);
    }
  }

  lemma StepLosesNothing(c: State, step: Step, r: Node, o: Node, a: string, home: string -> Node)
    requires AtHome(c, home) && Enabled(c, step) && !step.Fail?
    ensures !Loses(c, step, r, o, a)
  {
    if step.Deliver? && step.r == r && step.o != o && o in c.apps && (r, o) in c.pending {
      assert QueueAtHome(c.pending[(r, step.o)], step.o, home);
      ForeignClearsNothing(c.apps[o], c.pending[(r, o)], o, c.pending[(r, step.o)][0], home);
    }
  }

  lemma StepStaysAtHome(cfg: Config, c: State, step: Step, home: string -> Node)
    requires AtHome(c, home) && Enabled(c, step) && Homely(step, home)
    ensures AtHome(Next(cfg, c, step), home)
  {
    if IsLocal(step) {
      LocalStaysAtHome(cfg, c, step, home);
    } else {
      DeliveredQueuesStayAtHome(cfg, c, step, home);
    }
  }

  lemma AtHomeAtFirst(c: State, home: string -> Node)
    requires Initial(c)
    ensures AtHome(c, home)
  {}

  // No host fails, and an address registers at its home.
  predicate Homely(step: Step, home: string -> Node) {
    !step.Fail? && (step.Register? ==> home(step.app.addr) == step.o)
  }

  lemma {:induction false} RunStaysAtHome(cfg: Config, cs: seq<State>, steps: seq<Step>, n: nat, home: string -> Node)
    requires IsRun(cfg, cs, steps) && n <= |steps|
    requires forall i :: 0 <= i < n ==> Homely(steps[i], home)
    ensures AtHome(cs[n], home)
  {
    if n == 0 {
      AtHomeAtFirst(cs[0], home);
    } else {
      RunStaysAtHome(cfg, cs, steps, n - 1, home);
      assert Follows(cfg, cs[n - 1], steps[n - 1], cs[n]);
      StepStaysAtHome(cfg, cs[n - 1], steps[n - 1], home);
    }
  }

  lemma NothingLostAtHome(cfg: Config, cs: seq<State>, steps: seq<Step>, n: nat, home: string -> Node,
                          r: Node, o: Node, a: string)
    requires IsRun(cfg, cs, steps) && n <= |steps|
    requires forall i :: 0 <= i < n ==> Homely(steps[i], home)
    ensures !Lost(cs, steps, n, r, o, a)
  {
    forall i: nat | i < n ensures !Loses(cs[i], steps[i], r, o, a) {
      RunStaysAtHome(cfg, cs, steps, i, home);
      assert Follows(cfg, cs[i], steps[i], cs[i + 1]);
      StepLosesNothing(cs[i], steps[i], r, o, a, home);
    }
  }

  // ---------------------------------------------------------------------
  // A run in which a host that is up is reported as failed.

  // Two nodes: o with this cache, and r, to which the events q are on their way
  // from o, and which has lost `hid`.
  ghost predicate Pair(c: State, r: Node, o: Node, apps: Apps, q: seq<Event>, hid: set<string>) {
    && Wired(c) && r != o && c.apps.Keys == {r, o}
    && c.apps[o] == apps && c.pending[(r, o)] == q && c.pending[(r, r)] == [] && c.hidden[(r, o)] == hid
  }

  lemma PairLocal(cfg: Config, c: State, step: Step, r: Node, o: Node, apps: Apps, q: seq<Event>, hid: set<string>)
    requires Pair(c, r, o, apps, q, hid) && Enabled(c, step) && IsLocal(step) && step.o == o
    ensures Pair(Next(cfg, c, step), r, o, LocalApps(cfg.ttl, apps, step), q + Announced(step),
                 if step.Register? then hid - {step.app.addr} else hid)
  {}

  lemma PairDeliver(cfg: Config, c: State, r: Node, o: Node, apps: Apps, q: seq<Event>, hid: set<string>)
    requires Pair(c, r, o, apps, q, hid) && q != []
    ensures Pair(Next(cfg, c, Deliver(r, o)), r, o, apps, q[1..], hid)
  {}

  lemma PairFail(cfg: Config, c: State, r: Node, o: Node, apps: Apps, hid: set<string>)
    requires Pair(c, r, o, apps, [], hid)
    ensures Pair(Next(cfg, c, Fail(r, o)), r, o, apps, [], hid + apps.Keys)
  {
    assert Cleared(apps, [], o, HostFailed(o)) == apps.Keys;
  }

  // The run goes on by one step.
  lemma RunSnoc(cfg: Config, cs: seq<State>, steps: seq<Step>, step: Step) returns (cs': seq<State>)
    requires IsRun(cfg, cs, steps) && Wired(cs[|steps|]) && Enabled(cs[|steps|], step)
    ensures IsRun(cfg, cs', steps + [step]) && cs'[|steps| + 1] == Next(cfg, cs[|steps|], step)
  {
    cs' := cs + [Next(cfg, cs[|steps|], step)];
    var steps' := steps + [step];
    forall i | 0 <= i < |steps'| ensures Follows(cfg, cs'[i], steps'[i], cs'[i + 1]) {
      if i < |steps| {
        assert Follows(cfg, cs[i], steps[i], cs[i + 1]);
      }
    }
  }

  function NewPair(r: Node, o: Node): (c: State)
    requires r != o
    ensures Initial(c) && Pair(c, r, o, map[], [], {})
  {
    var nodes, pairs := {r, o}, {(r, r), (r, o), (o, r), (o, o)};
    State(map n | n in nodes :: map[], map n | n in nodes :: map[],
          map p | p in pairs :: [], map p | p in pairs :: {})
  }

  lemma RegisterInPair(cfg: Config, r: Node, o: Node, app: MicroApp) returns (cs: seq<State>)
    requires r != o
    ensures IsRun(cfg, cs, [Register(o, app, 0)])
    ensures Pair(cs[1], r, o, LocalApps(cfg.ttl, map[], Register(o, app, 0)),
                 [Registered(o, app.addr, app.providers)], {})
  {
    var c0, register := NewPair(r, o), Register(o, app, 0);
    PairLocal(cfg, c0, register, r, o, map[], [], {});
    assert [] + [register] == [register] && [] + Announced(register) == Announced(register);
    cs := RunSnoc(cfg, [c0], [], register);
  }

  lemma DeliverInPair(cfg: Config, r: Node, o: Node, app: MicroApp) returns (cs: seq<State>)
    requires r != o
    ensures IsRun(cfg, cs, [Register(o, app, 0), Deliver(r, o)])
    ensures Pair(cs[2], r, o, LocalApps(cfg.ttl, map[], Register(o, app, 0)), [], {})
  {
    cs := RegisterInPair(cfg, r, o, app);
    PairDeliver(cfg, cs[1], r, o, cs[1].apps[o], cs[1].pending[(r, o)], {});
    cs := RunSnoc(cfg, cs, [Register(o, app, 0)], Deliver(r, o));
    assert [Register(o, app, 0)] + [Deliver(r, o)] == [Register(o, app, 0), Deliver(r, o)];
  }

  lemma FailInPair(cfg: Config, r: Node, o: Node, app: MicroApp) returns (cs: seq<State>)
    requires r != o
    ensures IsRun(cfg, cs, [Register(o, app, 0), Deliver(r, o), Fail(r, o)])
    ensures Pair(cs[3], r, o, LocalApps(cfg.ttl, map[], Register(o, app, 0)), [], {app.addr})
  {
    cs := DeliverInPair(cfg, r, o, app);
    var apps := LocalApps(cfg.ttl, map[], Register(o, app, 0));
    assert {} + apps.Keys == {app.addr};
    PairFail(cfg, cs[2], r, o, apps, {});
    var steps := [Register(o, app, 0), Deliver(r, o)];
    cs := RunSnoc(cfg, cs, steps, Fail(r, o));
    assert steps + [Fail(r, o)] == [Register(o, app, 0), Deliver(r, o), Fail(r, o)];
  }

  lemma RefreshInPair(cfg: Config, r: Node, o: Node, app: MicroApp) returns (cs: seq<State>)
    requires r != o
    ensures IsRun(cfg, cs, FailingSteps(r, o, app))
    ensures var refreshed := LocalApps(cfg.ttl, LocalApps(cfg.ttl, map[], Register(o, app, 0)),
                                       Refresh(o, app.addr, 0, 0));
            Pair(cs[4], r, o, refreshed, [], {app.addr})
  {
    cs := FailInPair(cfg, r, o, app);
    var steps, refresh := [Register(o, app, 0), Deliver(r, o), Fail(r, o)], Refresh(o, app.addr, 0, 0);
    PairLocal(cfg, cs[3], refresh, r, o, cs[3].apps[o], [], {app.addr});
    cs := RunSnoc(cfg, cs, steps, refresh);
    assert steps + [refresh] == FailingSteps(r, o, app);
  }

  // An application registers at o, r hears of it, r is told that o failed, and
  // the application refreshes in time.
  function FailingSteps(r: Node, o: Node, app: MicroApp): seq<Step> {
    [Register(o, app, 0), Deliver(r, o), Fail(r, o), Refresh(o, app.addr, 0, 0)]
  }

  // In the end the application is live, nothing is on its way to r, and r does
  // not list it.
  lemma HostFailureHidesALiveApplication(cfg: Config, r: Node, o: Node, app: MicroApp, s: string)
    returns (cs: seq<State>)
    requires r != o && s in app.providers
    ensures IsRun(cfg, cs, FailingSteps(r, o, app)) && CaughtUp(cs[4], r)
    ensures Cached(cs[4], s, o, app.addr) && Live(cs[4].apps[o], app.addr, 0)
    ensures Unlisted(cs[4].tables[r], o, app.addr)
  {
    cs := RefreshInPair(cfg, r, o, app);
    var steps := FailingSteps(r, o, app);
    assert Hidden(cs[|steps|], r, o, app.addr);
    HiddenIffLost(cfg, cs, steps, 4, r, o, app.addr);
    LostUntilRegisteredAgain(cfg, cs, steps, 4, r, o, app.addr);
  }
}
