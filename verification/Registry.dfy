// The rest of DiscoverdRepo in discoverd/msd/msd_repo.go: the cache of this
// node's applications, the routers, and the events handed to the cluster.
module Registry {
  import opened Listings
  import opened Wrappers
  import opened Routers
  import opened Fingerprints
  import opened Cache
  import opened Cluster
  import MsdRepo
  import Digests

  // What a lookup in the cache returns.
  function Lookup(apps: Apps, addr: string, now: int): Option<MicroApp> {
    if Live(apps, addr, now) then Some(apps[addr].obj) else None
  }

  // One node's share of a cluster.
  datatype Local = Local(node: Node, md5: Digests.Hash, ttl: int, apps: Apps, table: Table)

  ghost predicate Stands(l: Local, cfg: Config, c: State) {
    && Wired(c) && cfg == Config(l.md5, l.ttl)
    && l.node in c.apps && c.apps[l.node] == l.apps && c.tables[l.node] == l.table
  }

  // In whatever cluster l is its node's share, the step leads to l'.
  ghost predicate StepsTo(l: Local, l': Local, step: Step) {
    forall cfg, c :: Stands(l, cfg, c) ==> Enabled(c, step) && Stands(l', cfg, Next(cfg, c, step))
  }

  // The step is the arrival of e at r.
  ghost predicate Brings(c: State, step: Step, r: Node, e: Event) {
    match step
    case Deliver(r', o) => r' == r && (r, o) in c.pending && c.pending[(r, o)] != [] && c.pending[(r, o)][0] == e
    case Fail(r', n) => r' == r && e == HostFailed(n)
    case _ => false
  }

  ghost predicate ReceivesTo(l: Local, l': Local, e: Event) {
    forall cfg, c, step :: Stands(l, cfg, c) && Brings(c, step, l.node, e) ==>
      Enabled(c, step) && Stands(l', cfg, Next(cfg, c, step))
  }

  lemma LocalStepStandsIn(l: Local, step: Step, cfg: Config, c: State)
    requires Stands(l, cfg, c) && IsLocal(step) && step.o == l.node && Enabled(c, step)
    ensures Stands(l.(apps := LocalApps(l.ttl, l.apps, step)), cfg, Next(cfg, c, step))
  {}

  // What a local step does to a node's cache is all that it does to its share.
  lemma LocalStepStands(l: Local, step: Step)
    requires IsLocal(step) && step.o == l.node
    requires step.Refresh? ==> step.now <= step.later
    requires step.Sweep? ==> Sweepable(l.apps, step.lo, step.hi, Names(step.gone))
    ensures StepsTo(l, l.(apps := LocalApps(l.ttl, l.apps, step)), step)
  {
    forall cfg, c | Stands(l, cfg, c)
      ensures Enabled(c, step) && Stands(l.(apps := LocalApps(l.ttl, l.apps, step)), cfg, Next(cfg, c, step))
    {
      LocalStepStandsIn(l, step, cfg, c);
    }
  }

  lemma DeliveryStandsIn(l: Local, step: Step, e: Event, cfg: Config, c: State)
    requires Stands(l, cfg, c) && Brings(c, step, l.node, e) && step.Deliver?
    ensures Enabled(c, step) && Stands(l.(table := Apply(l.md5, l.table, e)), cfg, Next(cfg, c, step))
  {
    NextIsWired(cfg, c, step);
  }

  lemma FailureStandsIn(l: Local, step: Step, e: Event, cfg: Config, c: State)
    requires Stands(l, cfg, c) && Brings(c, step, l.node, e) && step.Fail?
    ensures Enabled(c, step) && Stands(l.(table := Apply(l.md5, l.table, e)), cfg, Next(cfg, c, step))
  {
    NextIsWired(cfg, c, step);
  }

  // An event changes nothing but the table.
  lemma ReceivingStands(l: Local, e: Event)
    ensures ReceivesTo(l, l.(table := Apply(l.md5, l.table, e)), e)
  {
    forall cfg, c, step | Stands(l, cfg, c) && Brings(c, step, l.node, e)
      ensures Enabled(c, step) && Stands(l.(table := Apply(l.md5, l.table, e)), cfg, Next(cfg, c, step))
    {
      if step.Deliver? {
        DeliveryStandsIn(l, step, e, cfg, c);
      } else {
        FailureStandsIn(l, step, e, cfg, c);
      }
    }
  }

  class Registry {
    const node: string
    const apps: Cache<MicroApp>
    const repo: MsdRepo.DiscoverdRepo
    var sent: seq<Event>

    ghost predicate Valid()
      reads this, apps, apps.owner.Keys, repo, repo.owner.Keys
    {
      apps.Valid() && repo.Valid()
    }

    ghost function Share(): Local
      reads this, apps, repo
    {
      Local(node, repo.md5, apps.defaultExpiration, apps.store, repo.table)
    }

    // The node has taken the step and announced what belongs to it.
    ghost predicate Performs(was: Local, wasSent: seq<Event>, step: Step)
      reads this, apps, repo
    {
      && apps.store == LocalApps(was.ttl, was.apps, step) && sent == wasSent + Announced(step)
      && StepsTo(was, Share(), step)
    }

    constructor (node: string, ttl: int, md5: Digests.Hash)
      ensures Valid() && apps.store == map[] && repo.table == map[] && sent == []
      ensures this.node == node && repo.md5 == md5 && apps.defaultExpiration == if ttl == 0 then -1 else ttl
    {
      this.node, sent := node, [];
      apps := new Cache<MicroApp>(ttl);
      repo := new MsdRepo.DiscoverdRepo(md5);
    }

    method Register(ma: MicroApp, now: int)
      requires Valid()
      modifies this`sent, apps
      ensures Valid() && fresh(apps.owner.Keys - old(apps.owner).Keys)
      ensures Performs(old(Share()), old(sent), Step.Register(node, ma, now))
      ensures ma.addr in apps.store && apps.store[ma.addr].obj == ma
      ensures apps.store[ma.addr].expiration ==
              if apps.defaultExpiration > 0 then Some(now + apps.defaultExpiration) else None
      ensures apps.store == old(apps.store)[ma.addr := apps.store[ma.addr]]
      ensures sent == old(sent) + [Registered(node, ma.addr, ma.providers)] && repo.table == old(repo.table)
    {
      apps.Set(ma.addr, ma, 0, now);
      sent := sent + [Registered(node, ma.addr, ma.providers)];
      LocalStepStands(old(Share()), Step.Register(node, ma, now));
    }

    // The clock is read for the liveness test, for the new expiry, and once more
    // when the fingerprint is computed.
    method Refresh(addr: string, now: int, later: int, last: int) returns (isLive: bool, routerCS: string)
      requires Valid() && now <= later <= last
      modifies apps`store, apps.owner.Keys
      ensures Valid() && isLive == Live(old(apps.store), addr, now)
      ensures Performs(old(Share()), old(sent), Step.Refresh(node, addr, now, later))
      ensures Renewed(old(apps.store), addr, now, later, isLive)
      ensures routerCS == RefreshChecksum(repo.table, Lookup(apps.store, addr, last))
      ensures if Found(addr, last) then SpellsRouted(routerCS, repo.table, apps.store[addr].obj.consumers)
              else routerCS == "00000000000000000000000000000000"
    {
      isLive := RenewLease(addr, now, later);
      routerCS := Fingerprint(addr, last);
      RefreshReports(repo.table, Lookup(apps.store, addr, last));
    }

    // The application is cached and not past its expiry instant.
    ghost predicate Found(addr: string, now: int)
      reads apps
    {
      addr in apps.store && (apps.store[addr].expiration.Some? ==> now <= apps.store[addr].expiration.value)
    }

    // The lease of addr has been renewed iff it had not run out; every other one,
    // and the application itself, is as it was.
    ghost predicate Renewed(was: Apps, addr: string, now: int, later: int, isLive: bool)
      reads apps
    {
      && (isLive <==> addr in was && (was[addr].expiration.Some? ==> now <= was[addr].expiration.value))
      && (!isLive ==> apps.store == was)
      && (isLive ==>
            && addr in apps.store && apps.store == was[addr := apps.store[addr]]
            && apps.store[addr].obj == was[addr].obj
            && apps.store[addr].expiration ==
               (if apps.defaultExpiration > 0 then Some(later + apps.defaultExpiration) else None))
    }

    method Fingerprint(addr: string, now: int) returns (routerCS: string)
      requires Valid()
      ensures routerCS == RefreshChecksum(repo.table, Lookup(apps.store, addr, now))
    {
      var app := apps.Get(addr, now);
      routerCS := repo.CalcRouterCheckSum(app);
    }

    method RenewLease(addr: string, now: int, later: int) returns (isLive: bool)
      requires Valid() && now <= later
      modifies apps`store, apps.owner.Keys
      ensures Valid() && isLive == Live(old(apps.store), addr, now)
      ensures Performs(old(Share()), old(sent), Step.Refresh(node, addr, now, later))
      ensures Renewed(old(apps.store), addr, now, later, isLive)
      ensures repo.table == old(repo.table)
    {
      isLive := apps.Refresh(addr, 0, now, later);
      LocalStepStands(old(Share()), Step.Refresh(node, addr, now, later));
    }

    // Nil for an application that is not live; for a live one the entries of the
    // consumed services that are in the table, in the consumer's order.
    method GetRouterTable(addr: string, now: int)
      returns (found: bool, rs: seq<MsdRepo.Entry>, checksum: string, ghost idx: seq<nat>)
      requires Valid()
      ensures found == Found(addr, now)
      ensures found ==> repo.PickedEntries(rs, idx, apps.store[addr].obj.consumers)
      ensures found ==> if rs == [] then checksum == ""
                        else SpellsRouted(checksum, repo.table, apps.store[addr].obj.consumers)
      ensures found ==> checksum == RouterTableOf(repo.table, Lookup(apps.store, addr, now)).value.checksum
    {
      var app := apps.Get(addr, now);
      found, rs, checksum, idx := app.Some?, [], "", [];
      if found {
        rs, checksum, idx := repo.CalcRouterTable(app);
      }
    }

    // One unregistration for each expired application, in any order.
    method OnAppExpired(dm: map<string, MicroApp>) returns (ghost order: seq<string>)
      modifies this`sent
      ensures Enumerates(order, dm.Keys) && sent == old(sent) + Unregistrations(order)
    {
      order := [];
      var todo := dm.Keys;
      while todo != {}
        invariant todo <= dm.Keys && Enumerates(order, dm.Keys - todo)
        invariant sent == old(sent) + Unregistrations(order)
        decreases todo
      {
        var k :| k in todo;
        todo := todo - {k};
        assert Unregistrations(order + [k]) == Unregistrations(order) + [Unregistered(k)];
        sent := sent + [Unregistered(k)];
        order := order + [k];
      }
    }

    method SweepCache(clock: seq<int>, lo: int, hi: int) returns (dm: map<string, MicroApp>)
      requires Valid() && |clock| == |apps.items|
      requires forall i :: 0 <= i < |clock| ==> lo <= clock[i] <= hi
      modifies apps`items, apps`store
      ensures Valid() && Sweepable(old(apps.store), lo, hi, dm.Keys) && apps.store == old(apps.store) - dm.Keys
    {
      dm := apps.DeleteExpired(clock, lo, hi);
    }

    // DeleteExpired and the expiry handler that it starts, as one step.
    method Sweep(clock: seq<int>, lo: int, hi: int) returns (ghost gone: seq<string>)
      requires Valid() && |clock| == |apps.items|
      requires forall i :: 0 <= i < |clock| ==> lo <= clock[i] <= hi
      modifies this`sent, apps`items, apps`store
      ensures Valid() && Sweepable(old(apps.store), lo, hi, Names(gone))
      ensures Performs(old(Share()), old(sent), Step.Sweep(node, lo, hi, gone))
    {
      var dm := SweepCache(clock, lo, hi);
      gone := [];
      if dm != map[] {
        gone := OnAppExpired(dm);
      }
      EnumeratedNames(gone, dm.Keys);
      LocalStepStands(old(Share()), Step.Sweep(node, lo, hi, gone));
    }

    // An event reaches the node, its own included.
    method Receive(e: Event)
      requires Valid()
      modifies repo, repo.owner.Keys
      ensures Valid() && fresh(repo.owner.Keys - old(repo.owner).Keys)
      ensures repo.table == Apply(repo.md5, old(repo.table), e)
      ensures ReceivesTo(old(Share()), Share(), e) && sent == old(sent)
    {
      ReceivingStands(Share(), e);
      match e
      case Registered(n, a, services) => repo.AddRouter(n, a, services);
      case Unregistered(a) => repo.RemoveRouter(a);
      case HostFailed(n) => repo.RemoveRouterByHost(n);
    }
  }
}
