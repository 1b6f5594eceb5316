// Replicas of the router table: which events may be delivered in different
// orders on different nodes without the nodes drifting apart.
module Convergence {
  import opened Digests
  import opened Listings
  import opened Routers

  // The two events can be swapped.
  predicate Independent(e: Event, f: Event) {
    match (e, f)
    case (Registered(n, a, ss), Registered(n', a', ss')) =>
      a != a' || (Names(ss) == Names(ss') && (n == n' || ss == []))
    case (Registered(n, a, ss), Unregistered(a')) => a != a' || ss == []
    case (Unregistered(a'), Registered(n, a, ss)) => a != a' || ss == []
    case (Registered(n, a, ss), HostFailed(n')) => n != n' || ss == []
    case (HostFailed(n'), Registered(n, a, ss)) => n != n' || ss == []
    case _ => true
  }

  // Same address, or a host failure against a registration at that host.
  predicate Conflict(e: Event, f: Event) {
    || (!e.HostFailed? && !f.HostFailed? && e.addr == f.addr)
    || (e.HostFailed? && f.Registered? && e.node == f.node)
    || (f.HostFailed? && e.Registered? && e.node == f.node)
  }

  ghost predicate SameRows(t: Table, t': Table) {
    forall s, n, a :: Lists(t, s, n, a) <==> Lists(t', s, n, a)
  }

  // `Independent` is exact: it holds of two events iff swapping them never
  // changes which rows the table has.
  lemma IndependentIffSwappable(h: Hash, e: Event, f: Event)
    ensures Independent(e, f) <==>
            forall t: Table :: SameRows(Apply(h, Apply(h, t, e), f), Apply(h, Apply(h, t, f), e))
  {
    if Independent(e, f) {
      forall t: Table ensures SameRows(Apply(h, Apply(h, t, e), f), Apply(h, Apply(h, t, f), e)) {
        IndependentSwap(h, t, e, f);
      }
    } else {
      DependentDiffer(h, e, f);
    }
  }

  lemma TwoStepRows(h: Hash, t: Table, e: Event, f: Event, s: string, n: string, a: string)
    ensures Lists(Apply(h, Apply(h, t, e), f), s, n, a) <==>
            Adds(f, s, n, a) || (!Kills(f, n, a) && (Adds(e, s, n, a) || (Lists(t, s, n, a) && !Kills(e, n, a))))
  {
    ApplyRows(h, Apply(h, t, e), f, s, n, a);
    ApplyRows(h, t, e, s, n, a);
  }

  lemma IndependentSwap(h: Hash, t: Table, e: Event, f: Event)
    requires Independent(e, f)
    ensures SameRows(Apply(h, Apply(h, t, e), f), Apply(h, Apply(h, t, f), e))
  {
    forall s, n, a
      ensures Lists(Apply(h, Apply(h, t, e), f), s, n, a) <==> Lists(Apply(h, Apply(h, t, f), e), s, n, a)
    {
      TwoStepRows(h, t, e, f, s, n, a);
      TwoStepRows(h, t, f, e, s, n, a);
      if e.Registered? && f.Registered? && e.addr == f.addr {
        IndependentService(e, f, s);
      }
    }
  }

  lemma IndependentService(e: Event, f: Event, s: string)
    requires Independent(e, f) && e.Registered? && f.Registered? && e.addr == f.addr
    ensures s in e.services <==> s in f.services
  {
    assert s in Names(e.services) <==> s in e.services;
    assert s in Names(f.services) <==> s in f.services;
  }

  lemma IndependentIsSymmetric(e: Event, f: Event)
    ensures Independent(e, f) <==> Independent(f, e)
  {
    if e.Registered? && f.Registered? {
      assert e.services != [] ==> e.services[0] in Names(e.services);
      assert f.services != [] ==> f.services[0] in Names(f.services);
    }
  }

  // On the empty table the order of two dependent events shows.
  lemma DependentDiffer(h: Hash, e: Event, f: Event)
    requires !Independent(e, f)
    ensures !SameRows(Apply(h, Apply(h, map[], e), f), Apply(h, Apply(h, map[], f), e))
  {
    var s, r := DependentWitness(e, f);
    TwoStepRows(h, map[], e, f, s, r.node, r.addr);
    TwoStepRows(h, map[], f, e, s, r.node, r.addr);
  }

  // A row that one order of two dependent events leaves and the other does not.
  lemma DependentWitness(e: Event, f: Event) returns (s: string, r: Event)
    requires !Independent(e, f)
    ensures r.Registered? && s in r.services && r in {e, f}
    ensures !(Adds(e, s, r.node, r.addr) && Adds(f, s, r.node, r.addr))
    ensures Kills(e, r.node, r.addr) && Kills(f, r.node, r.addr)
  {
    if e.Registered? && f.Registered? {
      if Names(e.services) == Names(f.services) {
        s, r := e.services[0], e;
      } else if x :| x in e.services && x !in f.services {
        s, r := x, e;
      } else {
        var y :| y in f.services && y !in e.services;
        s, r := y, f;
      }
    } else if e.Registered? {
      s, r := e.services[0], e;
    } else {
      s, r := f.services[0], f;
    }
  }

  lemma DependentImpliesConflict(e: Event, f: Event)
    ensures !Independent(e, f) ==> Conflict(e, f)
  {}

  // ---------------------------------------------------------------------
  // Reordered deliveries.

  // `to` lists the events of `from` in another order: to[j] is from[p[j]], and
  // q is the way back.
  ghost predicate Rearranged(from: seq<Event>, to: seq<Event>, p: seq<nat>, q: seq<nat>) {
    && |from| == |to| == |p| == |q|
    && (forall j :: 0 <= j < |to| ==> p[j] < |from| && to[j] == from[p[j]] && q[p[j]] == j)
    && (forall i :: 0 <= i < |from| ==> q[i] < |to| && p[q[i]] == i)
  }

  // Every two dependent events keep their order.
  ghost predicate KeepsDependentOrder(to: seq<Event>, p: seq<nat>)
    requires |p| == |to|
  {
    forall j, k :: 0 <= j < k < |to| && !Independent(to[j], to[k]) ==> p[j] < p[k]
  }

  ghost predicate KeepsConflictOrder(to: seq<Event>, p: seq<nat>)
    requires |p| == |to|
  {
    forall j, k :: 0 <= j < k < |to| && Conflict(to[j], to[k]) ==> p[j] < p[k]
  }

  lemma {:induction false} LastKiller(es: seq<Event>, from: nat, n: string, a: string) returns (k: nat)
    requires from <= |es| && !SurvivesFrom(es, from, n, a)
    ensures from <= k < |es| && Kills(es[k], n, a) && SurvivesFrom(es, k + 1, n, a)
  {
    if Kills(es[|es| - 1], n, a) {
      k := |es| - 1;
    } else {
      var init := es[..|es| - 1];
      assert !SurvivesFrom(init, from, n, a);
      k := LastKiller(init, from, n, a);
      assert forall j :: k + 1 <= j < |es| - 1 ==> es[j] == init[j];
    }
  }

  lemma AddedAndKeptAfterReorder(from: seq<Event>, to: seq<Event>, p: seq<nat>, q: seq<nat>,
                                 s: string, n: string, a: string)
    requires Rearranged(from, to, p, q) && KeepsDependentOrder(to, p)
    requires AddedAndKept(from, s, n, a)
    ensures AddedAndKept(to, s, n, a)
  {
    var i: nat :| LastAdded(from, i, s, n, a);
    var j0 := q[i];
    if SurvivesFrom(to, j0 + 1, n, a) {
      assert LastAdded(to, j0, s, n, a);
    } else {
      // The last event that removes the row comes before from[i] in the other
      // order, so it can be swapped with it and registers the row again.
      var k := LastKiller(to, j0 + 1, n, a);
      assert p[k] < i;
      assert Independent(to[j0], to[k]);
      if to[k].Registered? {
        IndependentService(to[j0], to[k], s);
      }
      assert LastAdded(to, k, s, n, a);
    }
  }

  lemma SurvivesAfterReorder(from: seq<Event>, to: seq<Event>, p: seq<nat>, q: seq<nat>, n: string, a: string)
    requires Rearranged(from, to, p, q) && SurvivesFrom(from, 0, n, a)
    ensures SurvivesFrom(to, 0, n, a)
  {}

  lemma RearrangedBack(from: seq<Event>, to: seq<Event>, p: seq<nat>, q: seq<nat>)
    requires Rearranged(from, to, p, q) && KeepsDependentOrder(to, p)
    ensures Rearranged(to, from, q, p) && KeepsDependentOrder(from, q)
  {
    forall i, k | 0 <= i < k < |from| && !Independent(from[i], from[k]) ensures q[i] < q[k] {
      IndependentIsSymmetric(from[i], from[k]);
      assert !Independent(to[q[k]], to[q[i]]);
    }
  }

  // ---------------------------------------------------------------------
  // Two tables that a client cannot tell apart except by address order.
  ghost predicate Agree(t: Table, t': Table) {
    && t.Keys == t'.Keys
    && forall s :: s in t ==>
         && multiset(t[s].addrs) == multiset(t'[s].addrs)
         && t[s].checksum == t'[s].checksum
  }

  lemma {:induction false} DistinctIsSet<T>(s: seq<T>)
    requires forall i, j :: 0 <= i < j < |s| ==> s[i] != s[j]
    ensures multiset(s) == multiset(set x | x in s)
  {
    if s != [] {
      var init, last := s[..|s| - 1], s[|s| - 1];
      assert s == init + [last];
      DistinctIsSet(init);
      assert last !in init;
      assert (set x | x in s) == (set x | x in init) + {last};
    }
  }

  lemma AddrsOfMembers(xs: seq<NodeAddr>, ys: seq<NodeAddr>)
    requires forall x :: x in xs ==> x in ys
    ensures forall a :: a in AddrsOf(xs) ==> a in AddrsOf(ys)
  {
    forall i | 0 <= i < |xs| ensures AddrsOf(xs)[i] in AddrsOf(ys) {
      assert xs[i] in ys;
      var j :| 0 <= j < |ys| && ys[j] == xs[i];
      assert AddrsOf(ys)[j] == xs[i].addr;
    }
  }

  lemma SameMembersSameSum(h: Hash, xs: seq<NodeAddr>, ys: seq<NodeAddr>)
    requires DistinctAddrs(xs) && DistinctAddrs(ys)
    requires forall x :: x in xs <==> x in ys
    ensures multiset(xs) == multiset(ys) && Checksum(h, xs) == Checksum(h, ys)
  {
    DistinctSameMembers(xs, ys);
    AddrsOfMembers(xs, ys);
    AddrsOfMembers(ys, xs);
    DistinctSameMembers(AddrsOf(xs), AddrsOf(ys));
    SumIgnoresOrder(h, AddrsOf(xs), AddrsOf(ys));
  }

  lemma DistinctSameMembers<T>(xs: seq<T>, ys: seq<T>)
    requires forall i, j :: 0 <= i < j < |xs| ==> xs[i] != xs[j]
    requires forall i, j :: 0 <= i < j < |ys| ==> ys[i] != ys[j]
    requires forall x :: x in xs <==> x in ys
    ensures multiset(xs) == multiset(ys)
  {
    DistinctIsSet(xs);
    DistinctIsSet(ys);
    assert (set x | x in xs) == (set x | x in ys);
  }

  // For tables that events can produce, the relation determines everything
  // but the order of the addresses.
  lemma AgreeIffSameRows(h: Hash, t: Table, t': Table)
    requires Inv(h, t) && Inv(h, t')
    ensures Agree(t, t') <==> SameRows(t, t')
  {
    if SameRows(t, t') {
      KeysFollowRows(h, t, t');
      KeysFollowRows(h, t', t);
      forall s | s in t
        ensures multiset(t[s].addrs) == multiset(t'[s].addrs) && t[s].checksum == t'[s].checksum
      {
        var xs, xs' := t[s].addrs, t'[s].addrs;
        assert forall x :: x in xs <==> Lists(t, s, x.node, x.addr);
        assert forall x :: x in xs' <==> Lists(t', s, x.node, x.addr);
        assert forall x :: x in xs <==> x in xs';
        SameMembersSameSum(h, xs, xs');
      }
    }
    if Agree(t, t') {
      forall s, n, a ensures Lists(t, s, n, a) <==> Lists(t', s, n, a) {
        if s in t {
          assert NodeAddr(n, a) in multiset(t[s].addrs) <==> NodeAddr(n, a) in multiset(t'[s].addrs);
        }
      }
    }
  }

  lemma KeysFollowRows(h: Hash, t: Table, t': Table)
    requires Inv(h, t) && SameRows(t, t')
    ensures t.Keys <= t'.Keys
  {
    forall s | s in t ensures s in t' {
      var x := t[s].addrs[0];
      assert Lists(t, s, x.node, x.addr);
    }
  }

  // Main theorem: tables that agree, and receive the same events in orders
  // that differ only on independent events, agree afterwards.
  lemma ReplicasConverge(h: Hash, t: Table, t': Table, from: seq<Event>, to: seq<Event>, p: seq<nat>, q: seq<nat>)
    requires Inv(h, t) && Inv(h, t') && Agree(t, t')
    requires Rearranged(from, to, p, q) && KeepsDependentOrder(to, p)
    ensures Agree(Run(h, t, from), Run(h, t', to))
  {
    AgreeIffSameRows(h, t, t');
    RearrangedBack(from, to, p, q);
    var u, u' := Run(h, t, from), Run(h, t', to);
    forall s, n, a ensures Lists(u, s, n, a) <==> Lists(u', s, n, a) {
      ClosedForm(h, t, from, s, n, a);
      ClosedForm(h, t', to, s, n, a);
      if AddedAndKept(from, s, n, a) {
        AddedAndKeptAfterReorder(from, to, p, q, s, n, a);
      }
      if AddedAndKept(to, s, n, a) {
        AddedAndKeptAfterReorder(to, from, q, p, s, n, a);
      }
      if SurvivesFrom(from, 0, n, a) {
        SurvivesAfterReorder(from, to, p, q, n, a);
      }
      if SurvivesFrom(to, 0, n, a) {
        SurvivesAfterReorder(to, from, q, p, n, a);
      }
    }
    RunKeepsInv(h, t, from);
    RunKeepsInv(h, t', to);
    AgreeIffSameRows(h, u, u');
  }

  // The same with the coarser, syntactic notion of conflict.
  lemma ReplicasConvergeOnConflicts(h: Hash, t: Table, from: seq<Event>, to: seq<Event>, p: seq<nat>, q: seq<nat>)
    requires Inv(h, t)
    requires Rearranged(from, to, p, q) && KeepsConflictOrder(to, p)
    ensures Agree(Run(h, t, from), Run(h, t, to))
  {
    forall j, k | 0 <= j < k < |to| && !Independent(to[j], to[k]) ensures p[j] < p[k] {
      DependentImpliesConflict(to[j], to[k]);
    }
    ReplicasConverge(h, t, t, from, to, p, q);
  }
}
