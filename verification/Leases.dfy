// What the nodes of a cluster cache, and until when, read off the steps of the
// run: an application is cached from its registration until a sweep takes it,
// and its lease runs for ttl from its last registration or timely refresh.
module Leases {
  import opened Cache
  import opened Cluster
  import opened Fingerprints
  import opened Routers
  import opened Wrappers

  // o's item for the address a.
  type Item = Option<Entry<MicroApp>>

  ghost function ItemAt(c: State, o: Node, a: string): Item {
    if o in c.apps && a in c.apps[o] then Some(c.apps[o][a]) else None
  }

  // The step grants a at o a new lease: o registers it, or refreshes it while its
  // lease has not run out.
  predicate Grants(x: Item, step: Step, o: Node, a: string) {
    match step
    case Register(o', app, _) => o' == o && app.addr == a
    case Refresh(o', a', now, _) =>
      o' == o && a' == a && x.Some? && (x.value.expiration.Some? ==> now <= x.value.expiration.value)
    case _ => false
  }

  // The instant from which the lease counts.
  function GrantedAt(step: Step): int {
    match step
    case Register(_, _, now) => now
    case Refresh(_, _, _, later) => later
    case _ => 0
  }

  predicate Takes(step: Step, o: Node, a: string) {
    step.Sweep? && step.o == o && a in step.gone
  }

  predicate LeaseEnds(x: Item, ttl: int, from: int) {
    x.Some? && x.value.expiration == if ttl > 0 then Some(from + ttl) else None
  }

  // What one step does to the item.
  predicate ItemStep(ttl: int, x: Item, step: Step, x': Item, o: Node, a: string) {
    && (x'.Some? <==> IsRegistration(step, o, a) || (x.Some? && !Takes(step, o, a)))
    && (x'.Some? && IsRegistration(step, o, a) ==> x'.value.obj == step.app)
    && (x'.Some? && x.Some? && !IsRegistration(step, o, a) ==> x'.value.obj == x.value.obj)
    && (Grants(x, step, o, a) ==> LeaseEnds(x', ttl, GrantedAt(step)))
    && (x'.Some? && !Grants(x, step, o, a) ==> x' == x)
  }

  lemma LocalItemStep(cfg: Config, c: State, step: Step, a: string)
    requires Wired(c) && Enabled(c, step) && IsLocal(step)
    ensures var apps' := LocalApps(cfg.ttl, c.apps[step.o], step);
            ItemStep(cfg.ttl, ItemAt(c, step.o, a), step, if a in apps' then Some(apps'[a]) else None, step.o, a)
  {}

  lemma StepsChangeItems(cfg: Config, c: State, step: Step, c': State, o: Node, a: string)
    requires Follows(cfg, c, step, c') && o in c.apps
    ensures o in c'.apps && ItemStep(cfg.ttl, ItemAt(c, o, a), step, ItemAt(c', o, a), o, a)
  {
    if IsLocal(step) {
      LocalItemStep(cfg, c, step, a);
    }
  }

  // ---------------------------------------------------------------------
  // One item over a whole run.

  predicate ItemRun(ttl: int, xs: seq<Item>, steps: seq<Step>, o: Node, a: string) {
    && |xs| == |steps| + 1 && xs[0] == None
    && forall i :: 0 <= i < |steps| ==> ItemStep(ttl, xs[i], steps[i], xs[i + 1], o, a)
  }

  lemma ItemAtFirst(c: State, o: Node, a: string)
    requires Initial(c)
    ensures ItemAt(c, o, a) == None
  {}

  lemma {:induction false} NodesStay(cfg: Config, cs: seq<State>, steps: seq<Step>, n: nat)
    requires IsRun(cfg, cs, steps) && n <= |steps|
    ensures cs[n].apps.Keys == cs[0].apps.Keys
  {
    if n > 0 {
      NodesStay(cfg, cs, steps, n - 1);
      assert Follows(cfg, cs[n - 1], steps[n - 1], cs[n]);
      NextIsWired(cfg, cs[n - 1], steps[n - 1]);
    }
  }

  lemma ItemsOfRun(cfg: Config, cs: seq<State>, steps: seq<Step>, o: Node, a: string) returns (xs: seq<Item>)
    requires IsRun(cfg, cs, steps) && o in cs[0].apps
    ensures ItemRun(cfg.ttl, xs, steps, o, a)
    ensures |xs| == |cs| && forall i :: 0 <= i < |xs| ==> xs[i] == ItemAt(cs[i], o, a)
  {
    xs := seq(|cs|, i requires 0 <= i < |cs| => ItemAt(cs[i], o, a));
    ItemAtFirst(cs[0], o, a);
    forall i | 0 <= i < |steps| ensures ItemStep(cfg.ttl, xs[i], steps[i], xs[i + 1], o, a) {
      NodesStay(cfg, cs, steps, i);
      assert Follows(cfg, cs[i], steps[i], cs[i + 1]);
      StepsChangeItems(cfg, cs[i], steps[i], cs[i + 1], o, a);
    }
  }

  predicate KeptAfter(steps: seq<Step>, i: nat, n: nat, o: Node, a: string)
    requires n <= |steps|
  {
    forall j :: i < j < n ==> !IsRegistration(steps[j], o, a) && !Takes(steps[j], o, a)
  }

  // The i-th step is o's last registration of a, and no sweep has taken it since.
  predicate RegisteredBy(steps: seq<Step>, i: nat, n: nat, o: Node, a: string)
    requires n <= |steps|
  {
    i < n && IsRegistration(steps[i], o, a) && KeptAfter(steps, i, n, o, a)
  }

  lemma {:induction false} ItemWasRegistered(ttl: int, xs: seq<Item>, steps: seq<Step>, n: nat, o: Node, a: string)
    returns (i: nat)
    requires ItemRun(ttl, xs, steps, o, a) && n <= |steps| && xs[n].Some?
    ensures RegisteredBy(steps, i, n, o, a) && xs[n].value.obj == steps[i].app
  {
    assert ItemStep(ttl, xs[n - 1], steps[n - 1], xs[n], o, a);
    if IsRegistration(steps[n - 1], o, a) {
      i := n - 1;
    } else {
      i := ItemWasRegistered(ttl, xs, steps, n - 1, o, a);
    }
  }

  lemma {:induction false} ItemStays(ttl: int, xs: seq<Item>, steps: seq<Step>, i: nat, n: nat, o: Node, a: string)
    requires ItemRun(ttl, xs, steps, o, a) && n <= |steps| && RegisteredBy(steps, i, n, o, a)
    ensures xs[n].Some?
  {
    assert ItemStep(ttl, xs[n - 1], steps[n - 1], xs[n], o, a);
    if i < n - 1 {
      ItemStays(ttl, xs, steps, i, n - 1, o, a);
    }
  }

  // The i-th step granted the lease that the item has in the end.
  predicate LastGrant(xs: seq<Item>, steps: seq<Step>, i: nat, n: nat, o: Node, a: string)
    requires n <= |steps| < |xs|
  {
    && i < n && Grants(xs[i], steps[i], o, a)
    && forall j :: i < j < n ==> !Grants(xs[j], steps[j], o, a)
  }

  lemma {:induction false} ItemLease(ttl: int, xs: seq<Item>, steps: seq<Step>, n: nat, o: Node, a: string)
    returns (i: nat)
    requires ItemRun(ttl, xs, steps, o, a) && n <= |steps| && xs[n].Some?
    ensures LastGrant(xs, steps, i, n, o, a) && LeaseEnds(xs[n], ttl, GrantedAt(steps[i]))
  {
    assert ItemStep(ttl, xs[n - 1], steps[n - 1], xs[n], o, a);
    if Grants(xs[n - 1], steps[n - 1], o, a) {
      i := n - 1;
    } else {
      i := ItemLease(ttl, xs, steps, n - 1, o, a);
    }
  }

  // ---------------------------------------------------------------------
  // What that says of clusters.

  ghost predicate IsLastGrant(cs: seq<State>, steps: seq<Step>, i: nat, n: nat, o: Node, a: string)
    requires n <= |steps| < |cs|
  {
    && i < n && Grants(ItemAt(cs[i], o, a), steps[i], o, a)
    && forall j :: i < j < n ==> !Grants(ItemAt(cs[j], o, a), steps[j], o, a)
  }

  // At every moment of every run a node caches exactly the applications that it
  // has registered and not swept since, each as it was last registered.
  lemma CachedIffRegistered(cfg: Config, cs: seq<State>, steps: seq<Step>, n: nat, o: Node, a: string)
    requires IsRun(cfg, cs, steps) && n <= |steps| && o in cs[0].apps
    ensures ItemAt(cs[n], o, a).Some? <==> exists i: nat :: RegisteredBy(steps, i, n, o, a)
    ensures ItemAt(cs[n], o, a).Some? ==>
              exists i: nat :: RegisteredBy(steps, i, n, o, a) && ItemAt(cs[n], o, a).value.obj == steps[i].app
  {
    var xs := ItemsOfRun(cfg, cs, steps, o, a);
    if xs[n].Some? {
      var i := ItemWasRegistered(cfg.ttl, xs, steps, n, o, a);
    }
    if i: nat :| RegisteredBy(steps, i, n, o, a) {
      ItemStays(cfg.ttl, xs, steps, i, n, o, a);
    }
  }

  // Main theorem: in every run each cached application expires exactly ttl after
  // its last registration or timely refresh, and never if ttl is not positive.
  lemma LeasesRunForTtl(cfg: Config, cs: seq<State>, steps: seq<Step>, n: nat, o: Node, a: string) returns (i: nat)
    requires IsRun(cfg, cs, steps) && n <= |steps| && o in cs[n].apps && a in cs[n].apps[o]
    ensures IsLastGrant(cs, steps, i, n, o, a)
    ensures cs[n].apps[o][a].expiration == if cfg.ttl > 0 then Some(GrantedAt(steps[i]) + cfg.ttl) else None
  {
    NodesStay(cfg, cs, steps, n);
    var xs := ItemsOfRun(cfg, cs, steps, o, a);
    i := ItemLease(cfg.ttl, xs, steps, n, o, a);
  }

  lemma SweepAnnounces(cfg: Config, c: State, step: Step, c': State, o: Node, a: string)
    requires Follows(cfg, c, step, c') && step.Sweep? && step.o == o && o in c.apps && a in c.apps[o]
    ensures o in c'.apps && (a in c'.apps[o] <==> a !in step.gone)
    ensures a in step.gone ==> forall r :: (r, o) in c'.pending ==> Unregistered(a) in c'.pending[(r, o)]
    ensures var e := c.apps[o][a].expiration;
            && (a in step.gone ==> e.Some? && e.value < step.hi)
            && (e.Some? && e.value < step.lo ==> a in step.gone)
  {
    if a in step.gone {
      var k :| 0 <= k < |step.gone| && step.gone[k] == a;
      assert Unregistrations(step.gone)[k] == Unregistered(a);
    }
  }

  // So a sweep that is over by the end of a lease leaves the application cached,
  // and one that begins after it takes the application and announces that to
  // every node.
  lemma SweepsEndLeases(cfg: Config, cs: seq<State>, steps: seq<Step>, n: nat, o: Node, a: string) returns (i: nat)
    requires IsRun(cfg, cs, steps) && n < |steps| && cfg.ttl > 0
    requires o in cs[n].apps && a in cs[n].apps[o] && steps[n].Sweep? && steps[n].o == o
    ensures IsLastGrant(cs, steps, i, n, o, a) && o in cs[n + 1].apps
    ensures var end := GrantedAt(steps[i]) + cfg.ttl;
            && (steps[n].hi <= end ==> a in cs[n + 1].apps[o])
            && (steps[n].lo > end ==>
                  && a !in cs[n + 1].apps[o]
                  && forall r :: (r, o) in cs[n + 1].pending ==> Unregistered(a) in cs[n + 1].pending[(r, o)])
  {
    i := LeasesRunForTtl(cfg, cs, steps, n, o, a);
    assert Follows(cfg, cs[n], steps[n], cs[n + 1]);
    SweepAnnounces(cfg, cs[n], steps[n], cs[n + 1], o, a);
  }
}
