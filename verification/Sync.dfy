// Copying a router table to another node: ListRouters on one side,
// UpdateRouters on the other.
module Sync {
  import opened Digests
  import opened Listings
  import opened Routers

  // rs is the table read in the key order ks; Go picks that order.
  ghost predicate Listing(rs: seq<Router>, t: Table, ks: seq<string>) {
    && Enumerates(ks, t.Keys)
    && |rs| == |ks|
    && forall i :: 0 <= i < |rs| ==> ks[i] in t && rs[i] == t[ks[i]]
  }

  // UpdateRouters: the last router of a service wins.
  function FromList(rs: seq<Router>): Table {
    if rs == [] then map[]
    else
      var last := rs[|rs| - 1];
      FromList(rs[..|rs| - 1])[last.service := last]
  }

  ghost predicate KeyedByService(t: Table) {
    forall k :: k in t ==> t[k].service == k
  }

  lemma {:induction false} FromListLookup(rs: seq<Router>)
    ensures forall k :: k in FromList(rs) ==> FromList(rs)[k] in rs && FromList(rs)[k].service == k
    ensures forall r :: r in rs ==> r.service in FromList(rs)
  {
    if rs != [] {
      var init, last := rs[..|rs| - 1], rs[|rs| - 1];
      assert rs == init + [last];
      FromListLookup(init);
    }
  }

  // Of the routers of one service the last one is kept.
  lemma {:induction false} LastRouterWins(rs: seq<Router>, i: nat)
    requires i < |rs| && forall j :: i < j < |rs| ==> rs[j].service != rs[i].service
    ensures rs[i].service in FromList(rs) && FromList(rs)[rs[i].service] == rs[i]
  {
    if i < |rs| - 1 {
      LastRouterWins(rs[..|rs| - 1], i);
    }
  }

  // The round trip is exact, in every listing order, iff each router is filed
  // under its own service name.
  lemma SyncRoundTrip(t: Table, rs: seq<Router>, ks: seq<string>)
    requires Listing(rs, t, ks)
    ensures FromList(rs) == t <==> KeyedByService(t)
  {
    FromListLookup(rs);
    if KeyedByService(t) {
      var t' := FromList(rs);
      forall k | k in t ensures k in t' {
        assert k in ks;
        var i :| 0 <= i < |ks| && ks[i] == k;
        assert rs[i] in rs;
      }
      forall k | k in t' ensures k in t && t'[k] == t[k] {
        var i :| 0 <= i < |rs| && rs[i] == t'[k];
        assert t[ks[i]].service == ks[i];
      }
    }
  }

  // A table that events can produce arrives unchanged, whatever the receiver
  // held before.
  lemma SyncCopiesReachableTables(h: Hash, es: seq<Event>, rs: seq<Router>, ks: seq<string>)
    requires Listing(rs, Run(h, map[], es), ks)
    ensures FromList(rs) == Run(h, map[], es) && Inv(h, FromList(rs))
  {
    RunKeepsInv(h, map[], es);
    SyncRoundTrip(Run(h, map[], es), rs, ks);
  }

  // What a list of routers must satisfy for a good table to come of it.
  ghost predicate GoodList(h: Hash, rs: seq<Router>) {
    && (forall r :: r in rs ==> WellFormedRouter(h, r.service, r))
    && forall r, r', x, x' :: r in rs && r' in rs && x in r.addrs && x' in r'.addrs && x.addr == x'.addr ==>
         x.node == x'.node
  }

  lemma GoodListsLoadGoodTables(h: Hash, rs: seq<Router>)
    requires GoodList(h, rs)
    ensures Inv(h, FromList(rs))
  {
    FromListLookup(rs);
  }

  lemma {:induction false} FromListHasAll(rs: seq<Router>, r: Router)
    requires forall i, j :: 0 <= i < j < |rs| ==> rs[i].service != rs[j].service
    requires r in rs
    ensures r.service in FromList(rs) && FromList(rs)[r.service] == r
  {
    var init, last := rs[..|rs| - 1], rs[|rs| - 1];
    assert rs == init + [last];
    if r != last {
      FromListHasAll(init, r);
    }
  }

  // When each service occurs once, that is also necessary.
  lemma LoadedTableIsGoodIff(h: Hash, rs: seq<Router>)
    requires forall i, j :: 0 <= i < j < |rs| ==> rs[i].service != rs[j].service
    ensures Inv(h, FromList(rs)) <==> GoodList(h, rs)
  {
    var t := FromList(rs);
    if Inv(h, t) {
      forall r | r in rs ensures r.service in t && t[r.service] == r {
        FromListHasAll(rs, r);
      }
      forall r, r', x, x' | r in rs && r' in rs && x in r.addrs && x' in r'.addrs && x.addr == x'.addr
        ensures x.node == x'.node
      {
        assert Lists(t, r.service, x.node, x.addr) && Lists(t, r'.service, x'.node, x'.addr);
      }
    } else if GoodList(h, rs) {
      GoodListsLoadGoodTables(h, rs);
    }
  }

  // All that ever changes a table: events, and loads from another node.
  datatype Change = Happens(e: Event) | Load(rs: seq<Router>)

  function Changed(h: Hash, t: Table, c: Change): Table {
    match c
    case Happens(e) => Apply(h, t, e)
    case Load(rs) => FromList(rs)
  }

  function RunChanges(h: Hash, t: Table, cs: seq<Change>): Table {
    if cs == [] then t else Changed(h, RunChanges(h, t, cs[..|cs| - 1]), cs[|cs| - 1])
  }

  // Every table reachable by events and loads of good lists satisfies the invariant.
  lemma {:induction false} ReachableTablesAreGood(h: Hash, cs: seq<Change>)
    requires forall i :: 0 <= i < |cs| && cs[i].Load? ==> GoodList(h, cs[i].rs)
    ensures Inv(h, RunChanges(h, map[], cs))
  {
    if cs != [] {
      var n := |cs| - 1;
      ReachableTablesAreGood(h, cs[..n]);
      match cs[n]
      case Happens(e) => ApplyKeepsInv(h, RunChanges(h, map[], cs[..n]), e);
      case Load(rs) => GoodListsLoadGoodTables(h, rs);
    }
  }
}
