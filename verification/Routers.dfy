// The router table of one node as a value, and what each event does to it
// (discoverd/msd/msd_repo.go). MsdRepo.dfy has the object that holds it.
module Routers {
  import opened Digests

  datatype NodeAddr = NodeAddr(node: string, addr: string)

  datatype Router = Router(service: string, addrs: seq<NodeAddr>, checksum: Digest)

  type Table = map<string, Router>

  // The two tests by which addresses are dropped.
  datatype Match = AtAddr(addr: string) | OnNode(node: string) {
    predicate Hits(x: NodeAddr) {
      match this
      case AtAddr(a) => x.addr == a
      case OnNode(n) => x.node == n
    }
  }

  datatype Event =
    | Registered(node: string, addr: string, services: seq<string>)
    | Unregistered(addr: string)
    | HostFailed(node: string)

  function AddrsOf(s: seq<NodeAddr>): seq<string> {
    seq(|s|, i requires 0 <= i < |s| => s[i].addr)
  }

  function Checksum(h: Hash, s: seq<NodeAddr>): Digest {
    Sum(h, AddrsOf(s))
  }

  function MakeRouter(h: Hash, service: string, addrs: seq<NodeAddr>): Router {
    Router(service, addrs, Checksum(h, addrs))
  }

  // The addresses that stay, in their order.
  function Keep(s: seq<NodeAddr>, m: Match): seq<NodeAddr> {
    if s == [] then []
    else if m.Hits(s[0]) then Keep(s[1..], m)
    else [s[0]] + Keep(s[1..], m)
  }

  function RemoveMatching(h: Hash, t: Table, m: Match): Table {
    map k | k in t && Keep(t[k].addrs, m) != [] :: MakeRouter(h, k, Keep(t[k].addrs, m))
  }

  function AddToService(h: Hash, t: Table, x: NodeAddr, service: string): Table {
    if service !in t then t[service := MakeRouter(h, service, [x])]
    else if x.addr in AddrsOf(t[service].addrs) then t
    else t[service := MakeRouter(h, service, t[service].addrs + [x])]
  }

  function AddToServices(h: Hash, t: Table, x: NodeAddr, services: seq<string>): Table {
    if services == [] then t
    else
      var n := |services| - 1;
      AddToService(h, AddToServices(h, t, x, services[..n]), x, services[n])
  }

  function Apply(h: Hash, t: Table, e: Event): Table {
    match e
    case Registered(n, a, services) =>
      AddToServices(h, RemoveMatching(h, t, AtAddr(a)), NodeAddr(n, a), services)
    case Unregistered(a) => RemoveMatching(h, t, AtAddr(a))
    case HostFailed(n) => RemoveMatching(h, t, OnNode(n))
  }

  function Run(h: Hash, t: Table, es: seq<Event>): Table {
    if es == [] then t
    else Apply(h, Run(h, t, es[..|es| - 1]), es[|es| - 1])
  }

  // ---------------------------------------------------------------------
  // The table as a relation: service s lists address a at node n.

  predicate Lists(t: Table, s: string, n: string, a: string) {
    s in t && NodeAddr(n, a) in t[s].addrs
  }

  lemma {:induction false} KeepMembers(s: seq<NodeAddr>, m: Match, x: NodeAddr)
    ensures x in Keep(s, m) <==> x in s && !m.Hits(x)
  {
    if s != [] {
      KeepMembers(s[1..], m, x);
      assert s == [s[0]] + s[1..];
    }
  }

  // What stays keeps its order.
  lemma {:induction false} KeepKeepsOrder(s: seq<NodeAddr>, m: Match) returns (idx: seq<nat>)
    ensures |idx| == |Keep(s, m)| && forall k, l :: 0 <= k < l < |idx| ==> idx[k] < idx[l]
    ensures forall k :: 0 <= k < |idx| ==> idx[k] < |s| && s[idx[k]] == Keep(s, m)[k]
  {
    idx := [];
    if s != [] {
      var rest := KeepKeepsOrder(s[1..], m);
      var moved := seq(|rest|, k requires 0 <= k < |rest| => rest[k] + 1);
      idx := if m.Hits(s[0]) then moved else [0] + moved;
    }
  }

  // A registration appends the address to each service it names, after taking it
  // out of wherever it was.
  lemma {:induction false} RegistrationAppends(h: Hash, t: Table, x: NodeAddr, services: seq<string>, s: string)
    requires forall k :: k in t ==> x.addr !in AddrsOf(t[k].addrs)
    ensures var t' := AddToServices(h, t, x, services);
            && (s in services ==>
                  s in t' && t'[s].addrs == (if s in t then t[s].addrs else []) + [x])
            && (s !in services ==> (s in t' <==> s in t) && (s in t ==> t'[s] == t[s]))
  {
    if services != [] {
      var n := |services| - 1;
      assert services == services[..n] + [services[n]];
      RegistrationAppends(h, t, x, services[..n], s);
      if s == services[n] && s in services[..n] {
        var was := if s in t then t[s].addrs else [];
        assert AddrsOf(was + [x])[|was|] == x.addr;
      }
    }
  }

  // A removal deletes from the relation exactly the rows that it names.
  lemma RemoveDeletesRows(h: Hash, t: Table, m: Match, s: string, n: string, a: string)
    ensures Lists(RemoveMatching(h, t, m), s, n, a)
       <==> Lists(t, s, n, a) && !m.Hits(NodeAddr(n, a))
  {
    if s in t {
      KeepMembers(t[s].addrs, m, NodeAddr(n, a));
    }
  }

  lemma {:induction false} AddInsertsRows(h: Hash, t: Table, x: NodeAddr, services: seq<string>,
                                          s: string, n: string, a: string)
    requires forall s', n' :: Lists(t, s', n', x.addr) ==> n' == x.node
    ensures Lists(AddToServices(h, t, x, services), s, n, a)
       <==> Lists(t, s, n, a) || (s in services && x == NodeAddr(n, a))
  {
    if services != [] {
      var k := |services| - 1;
      var t1 := AddToServices(h, t, x, services[..k]);
      AddInsertsRows(h, t, x, services[..k], s, n, a);
      assert services == services[..k] + [services[k]];
      if services[k] in t1 && x.addr in AddrsOf(t1[services[k]].addrs) {
        var i :| 0 <= i < |t1[services[k]].addrs| && t1[services[k]].addrs[i].addr == x.addr;
        var n' := t1[services[k]].addrs[i].node;
        assert Lists(t1, services[k], n', x.addr);
        AddInsertsRows(h, t, x, services[..k], services[k], n', x.addr);
      }
    }
  }

  // What one event does to the relation.
  lemma ApplyRows(h: Hash, t: Table, e: Event, s: string, n: string, a: string)
    ensures Lists(Apply(h, t, e), s, n, a) <==>
            Adds(e, s, n, a) || (Lists(t, s, n, a) && !Kills(e, n, a))
  {
    match e
    case Registered(n0, a0, services) =>
      var t1 := RemoveMatching(h, t, AtAddr(a0));
      forall s', n' ensures !Lists(t1, s', n', a0) {
        RemoveDeletesRows(h, t, AtAddr(a0), s', n', a0);
      }
      AddInsertsRows(h, t1, NodeAddr(n0, a0), services, s, n, a);
      RemoveDeletesRows(h, t, AtAddr(a0), s, n, a);
    case Unregistered(a0) => RemoveDeletesRows(h, t, AtAddr(a0), s, n, a);
    case HostFailed(n0) => RemoveDeletesRows(h, t, OnNode(n0), s, n, a);
  }

  predicate Adds(e: Event, s: string, n: string, a: string) {
    e.Registered? && e.node == n && e.addr == a && s in e.services
  }

  // Events after which an older row (n, a) is gone.
  predicate Kills(e: Event, n: string, a: string) {
    match e
    case Registered(_, a0, _) => a0 == a
    case Unregistered(a0) => a0 == a
    case HostFailed(n0) => n0 == n
  }

  // ---------------------------------------------------------------------
  // Closed form over histories.

  ghost predicate SurvivesFrom(es: seq<Event>, i: nat, n: string, a: string) {
    forall j :: i <= j < |es| ==> !Kills(es[j], n, a)
  }

  ghost predicate LastAdded(es: seq<Event>, i: nat, s: string, n: string, a: string) {
    i < |es| && Adds(es[i], s, n, a) && SurvivesFrom(es, i + 1, n, a)
  }

  ghost predicate AddedAndKept(es: seq<Event>, s: string, n: string, a: string) {
    exists i: nat :: LastAdded(es, i, s, n, a)
  }

  lemma AddedAndKeptSnoc(es: seq<Event>, e: Event, s: string, n: string, a: string)
    ensures AddedAndKept(es + [e], s, n, a) <==>
            Adds(e, s, n, a) || (AddedAndKept(es, s, n, a) && !Kills(e, n, a))
  {
    var k, fs := |es|, es + [e];
    assert fs[k] == e;
    if Adds(e, s, n, a) {
      assert LastAdded(fs, k, s, n, a);
    }
    if i: nat :| LastAdded(es, i, s, n, a) && !Kills(e, n, a) {
      assert LastAdded(fs, i, s, n, a);
    }
    if i: nat :| i < k && LastAdded(fs, i, s, n, a) {
      assert forall j :: 0 <= j < k ==> fs[j] == es[j];
      assert LastAdded(es, i, s, n, a);
    }
  }

  // A row is in the final table iff some registration put it there and nothing
  // later removed it, or it was there at the start and nothing removed it.
  lemma {:induction false} ClosedForm(h: Hash, t: Table, es: seq<Event>, s: string, n: string, a: string)
    ensures Lists(Run(h, t, es), s, n, a) <==>
            AddedAndKept(es, s, n, a) || (Lists(t, s, n, a) && SurvivesFrom(es, 0, n, a))
  {
    if es != [] {
      var init, e := es[..|es| - 1], es[|es| - 1];
      assert es == init + [e];
      ClosedForm(h, t, init, s, n, a);
      ApplyRows(h, Run(h, t, init), e, s, n, a);
      AddedAndKeptSnoc(init, e, s, n, a);
      assert SurvivesFrom(es, 0, n, a) <==> SurvivesFrom(init, 0, n, a) && !Kills(e, n, a);
    }
  }

  // ---------------------------------------------------------------------
  // What holds of every table reachable from the empty one.

  predicate DistinctAddrs(s: seq<NodeAddr>) {
    forall i, j :: 0 <= i < j < |s| ==> s[i].addr != s[j].addr
  }

  predicate WellFormedRouter(h: Hash, service: string, r: Router) {
    r.service == service && r.addrs != [] && DistinctAddrs(r.addrs) && r.checksum == Checksum(h, r.addrs)
  }

  ghost predicate OneNodePerAddr(t: Table) {
    forall s, s', n, n', a :: Lists(t, s, n, a) && Lists(t, s', n', a) ==> n == n'
  }

  ghost predicate WellFormedRouters(h: Hash, t: Table) {
    forall k :: k in t ==> WellFormedRouter(h, k, t[k])
  }

  ghost predicate Inv(h: Hash, t: Table) {
    WellFormedRouters(h, t) && OneNodePerAddr(t)
  }

  lemma {:induction false} KeepDistinct(s: seq<NodeAddr>, m: Match)
    requires DistinctAddrs(s)
    ensures DistinctAddrs(Keep(s, m))
  {
    if s != [] {
      KeepDistinct(s[1..], m);
      forall x | x in Keep(s[1..], m) ensures x.addr != s[0].addr {
        KeepMembers(s[1..], m, x);
      }
    }
  }

  lemma RemoveKeepsInv(h: Hash, t: Table, m: Match)
    requires Inv(h, t)
    ensures Inv(h, RemoveMatching(h, t, m))
  {
    forall k | k in t ensures DistinctAddrs(Keep(t[k].addrs, m)) {
      KeepDistinct(t[k].addrs, m);
    }
    var t' := RemoveMatching(h, t, m);
    forall s, n, a | Lists(t', s, n, a) ensures Lists(t, s, n, a) {
      RemoveDeletesRows(h, t, m, s, n, a);
    }
  }

  lemma {:induction false} AddKeepsRouters(h: Hash, t: Table, x: NodeAddr, services: seq<string>)
    requires WellFormedRouters(h, t)
    ensures WellFormedRouters(h, AddToServices(h, t, x, services))
  {
    if services != [] {
      var k := |services| - 1;
      AddKeepsRouters(h, t, x, services[..k]);
      var t1 := AddToServices(h, t, x, services[..k]);
      var ms := services[k];
      if ms in t1 && x.addr !in AddrsOf(t1[ms].addrs) {
        var s := t1[ms].addrs;
        forall i | 0 <= i < |s| ensures s[i].addr != x.addr {
          assert AddrsOf(s)[i] == s[i].addr;
        }
        assert DistinctAddrs(s + [x]);
      }
    }
  }

  lemma ApplyKeepsInv(h: Hash, t: Table, e: Event)
    requires Inv(h, t)
    ensures Inv(h, Apply(h, t, e))
  {
    match e
    case Unregistered(a) => RemoveKeepsInv(h, t, AtAddr(a));
    case HostFailed(n) => RemoveKeepsInv(h, t, OnNode(n));
    case Registered(n0, a0, services) =>
      RemoveKeepsInv(h, t, AtAddr(a0));
      AddKeepsRouters(h, RemoveMatching(h, t, AtAddr(a0)), NodeAddr(n0, a0), services);
      var t' := Apply(h, t, e);
      forall s, s', n, n', a | Lists(t', s, n, a) && Lists(t', s', n', a) ensures n == n' {
        ApplyRows(h, t, e, s, n, a);
        ApplyRows(h, t, e, s', n', a);
      }
  }

  lemma {:induction false} RunKeepsInv(h: Hash, t: Table, es: seq<Event>)
    requires Inv(h, t)
    ensures Inv(h, Run(h, t, es))
  {
    if es != [] {
      RunKeepsInv(h, t, es[..|es| - 1]);
      ApplyKeepsInv(h, Run(h, t, es[..|es| - 1]), es[|es| - 1]);
    }
  }

  lemma {:induction false} RunConcat(h: Hash, t: Table, es: seq<Event>, fs: seq<Event>)
    ensures Run(h, t, es + fs) == Run(h, Run(h, t, es), fs)
  {
    if fs == [] {
      assert es + fs == es;
    } else {
      assert (es + fs)[..|es + fs| - 1] == es + fs[..|fs| - 1];
      RunConcat(h, t, es, fs[..|fs| - 1]);
    }
  }
}
