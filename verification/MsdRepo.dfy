// The repository object of discoverd/msd/msd_repo.go: a map of routers whose
// address lists are Go slices, edited in place.
module MsdRepo {
  import opened Digests
  import opened Routers
  import opened Fingerprints
  import opened Wrappers
  import Listings
  import Sync

  // A Go slice that starts at the beginning of its backing array; the capacity
  // is the length of the array.
  datatype Slice = Slice(buf: array<NodeAddr>, len: nat) {
    predicate Valid() {
      len <= buf.Length
    }

    ghost function Items(): seq<NodeAddr>
      requires Valid()
      reads buf
    {
      buf[..len]
    }
  }

  // append(s[:i], s[i+1:]...): the tail moves down inside the same array.
  method DeleteAt(s: Slice, i: nat) returns (r: Slice)
    requires s.Valid() && i < s.len
    modifies s.buf
    ensures r == Slice(s.buf, s.len - 1)
    ensures r.Items() == old(s.Items())[..i] + old(s.Items())[i + 1..]
  {
    forall j | i <= j < s.len - 1 {
      s.buf[j] := s.buf[j + 1];
    }
    r := Slice(s.buf, s.len - 1);
  }

  // append(s, x): in place while there is room, else into a larger new array.
  method Append(s: Slice, x: NodeAddr) returns (r: Slice)
    requires s.Valid()
    modifies s.buf
    ensures r.Valid() && (r.buf == s.buf || fresh(r.buf))
    ensures r.Items() == old(s.Items()) + [x]
  {
    if s.len < s.buf.Length {
      s.buf[s.len] := x;
      r := Slice(s.buf, s.len + 1);
    } else {
      var buf := new NodeAddr[2 * s.len + 1](i => x);
      forall j | 0 <= j < s.len {
        buf[j] := s.buf[j];
      }
      r := Slice(buf, s.len + 1);
    }
  }

  // One turn of the descending loop, on sequences.
  lemma DeleteStep(items: seq<NodeAddr>, cur: seq<NodeAddr>, m: Match, i: nat)
    requires i < |items| && cur == items[..i + 1] + Keep(items[i + 1..], m)
    ensures i < |cur| && cur[i] == items[i]
    ensures items[..i] + Keep(items[i..], m) == if m.Hits(items[i]) then cur[..i] + cur[i + 1..] else cur
  {}

  // The descending loop shared by RemoveRouterByHost and removeRouter.
  method DeleteMatching(s: Slice, m: Match) returns (r: Slice)
    requires s.Valid()
    modifies s.buf
    ensures r.Valid() && r.buf == s.buf
    ensures r.Items() == Keep(old(s.Items()), m)
  {
    ghost var items := s.Items();
    r := s;
    var idx := s.len;
    assert items[..idx] + Keep(items[idx..], m) == items;
    while idx > 0
      invariant 0 <= idx <= |items| && r.Valid() && r.buf == s.buf
      invariant r.Items() == items[..idx] + Keep(items[idx..], m)
    {
      idx := idx - 1;
      DeleteStep(items, r.Items(), m, idx);
      if m.Hits(r.buf[idx]) {
        r := DeleteAt(r, idx);
      }
    }
    assert items[0..] == items;
  }

  datatype Entry = Entry(service: string, addrs: Slice, checksum: Digest)

  // The byte loop of the three checksum functions.
  method AddInto(sum: array<int>, d: Digest)
    requires IsDigest(sum[..])
    modifies sum
    ensures sum[..] == Plus(old(sum[..]), d)
  {
    ghost var was: Digest := sum[..];
    for idx := 0 to 16
      invariant sum.Length == 16
      invariant forall j :: 0 <= j < idx ==> sum[j] == AddByte(was[j], d[j])
      invariant forall j :: idx <= j < 16 ==> sum[j] == was[j]
    {
      sum[idx] := AddByte(sum[idx], d[idx]);
    }
    assert forall j :: 0 <= j < 16 ==> sum[..][j] == Plus(was, d)[j];
  }

  method CalcChecksum(h: Hash, s: Slice) returns (checksum: Digest)
    requires s.Valid()
    ensures checksum == Checksum(h, s.Items())
  {
    var sum := new int[16](_ => 0);
    assert forall j :: 0 <= j < 16 ==> sum[..][j] == Zero()[j];
    ghost var addrs := AddrsOf(s.Items());
    for i := 0 to s.len
      invariant sum[..] == Sum(h, addrs[..i])
    {
      assert addrs[..i + 1][..i] == addrs[..i];
      AddInto(sum, h(s.buf[i].addr));
    }
    assert addrs[..s.len] == addrs;
    checksum := sum[..];
  }

  method HasAddr(s: Slice, addr: string) returns (isExist: bool)
    requires s.Valid()
    ensures isExist <==> addr in AddrsOf(s.Items())
  {
    isExist := false;
    ghost var addrs := AddrsOf(s.Items());
    for i := 0 to s.len
      invariant addr !in addrs[..i]
    {
      assert addrs[i] == s.buf[i].addr;
      if s.buf[i].addr == addr {
        return true;
      }
    }
    assert addrs[..s.len] == addrs;
  }

  // Where the removal loop stands while the services in `todo` are left.
  ghost function PartlyRemoved(h: Hash, t: Table, m: Match, todo: set<string>): Table {
    map k | k in t && (k in todo || Keep(t[k].addrs, m) != []) ::
      if k in todo then t[k] else MakeRouter(h, k, Keep(t[k].addrs, m))
  }

  lemma PartlyRemovedEnds(h: Hash, t: Table, m: Match)
    ensures PartlyRemoved(h, t, m, t.Keys) == t
    ensures PartlyRemoved(h, t, m, {}) == Routers.RemoveMatching(h, t, m)
  {}

  lemma PartlyRemovedStep(h: Hash, t: Table, m: Match, k: string, todo: set<string>, before: Table, after: Table)
    requires k in t && k in todo && before == PartlyRemoved(h, t, m, todo)
    requires after == Refitted(h, before, m, k)
    ensures after == PartlyRemoved(h, t, m, todo - {k})
  {}

  // The table after one turn of the loop.
  ghost function Refitted(h: Hash, t: Table, m: Match, k: string): Table
    requires k in t
  {
    var kept := Keep(t[k].addrs, m);
    if kept == [] then t - {k} else t[k := MakeRouter(h, k, kept)]
  }

  // No two services share a backing array: `owner` says whose each one is.
  ghost predicate Owned(routers: map<string, Entry>, owner: map<array<NodeAddr>, string>) {
    forall k :: k in routers ==>
      && routers[k].addrs.Valid()
      && routers[k].addrs.buf in owner && owner[routers[k].addrs.buf] == k
  }

  ghost predicate Shows(e: Entry, r: Router)
    requires e.addrs.Valid()
    reads e.addrs.buf
  {
    r == Router(e.service, e.addrs.Items(), e.checksum)
  }

  // `table` is the routers with their lists read off the arrays.
  ghost predicate Shown(routers: map<string, Entry>, owner: map<array<NodeAddr>, string>, table: Table)
    requires Owned(routers, owner)
    reads owner.Keys
  {
    && (forall k :: k in table <==> k in routers)
    && forall k :: k in routers ==> Shows(routers[k], table[k])
  }

  lemma PutShown(routers: map<string, Entry>, owner: map<array<NodeAddr>, string>, table: Table,
                 k: string, e: Entry, r: Router)
    requires Owned(routers, owner)
    requires e.addrs.Valid() && (e.addrs.buf in owner ==> owner[e.addrs.buf] == k)
    requires forall k :: k in table <==> k in routers
    requires forall k' :: k' in routers && k' != k ==> Shows(routers[k'], table[k'])
    requires Shows(e, r)
    ensures Owned(routers[k := e], owner[e.addrs.buf := k])
    ensures Shown(routers[k := e], owner[e.addrs.buf := k], table[k := r])
  {}

  class DiscoverdRepo {
    const md5: Hash
    var routers: map<string, Entry>
    ghost var table: Table  // the routers with their lists read off the arrays
    ghost var owner: map<array<NodeAddr>, string>  // whose backing array it is

    ghost predicate Valid()
      reads this, owner.Keys
    {
      Owned(routers, owner) && Shown(routers, owner, table)
    }

    constructor (md5: Hash)
      ensures Valid() && table == map[] && owner == map[] && this.md5 == md5
    {
      this.md5 := md5;
      routers, table, owner := map[], map[], map[];
    }

    // s.routers[k] = e, where e's array is new or is k's own, perhaps just edited.
    method Put(k: string, e: Entry, ghost r: Router)
      requires Owned(routers, owner) && e.addrs.Valid() && (e.addrs.buf in owner ==> owner[e.addrs.buf] == k)
      requires forall k :: k in table <==> k in routers
      requires forall k' :: k' in routers && k' != k ==> Shows(routers[k'], table[k'])
      requires Shows(e, r)
      modifies this
      ensures Valid() && owner == old(owner)[e.addrs.buf := k] && table == old(table)[k := r]
    {
      PutShown(routers, owner, table, k, e, r);
      routers := routers[k := e];
      table := table[k := r];
      owner := owner[e.addrs.buf := k];
    }

    // delete(s.routers, k)
    method Delete(k: string)
      requires Owned(routers, owner)
      requires forall k :: k in table <==> k in routers
      requires forall k' :: k' in routers && k' != k ==> Shows(routers[k'], table[k'])
      modifies this
      ensures Valid() && owner == old(owner) && table == old(table) - {k}
    {
      routers := routers - {k};
      table := table - {k};
    }

    // The loop over the services of RemoveRouterByHost and removeRouter. Go
    // visits them in any order.
    method RemoveMatching(m: Match)
      requires Valid()
      modifies this, owner.Keys
      ensures Valid() && owner == old(owner)
      ensures table == Routers.RemoveMatching(md5, old(table), m)
    {
      PartlyRemovedEnds(md5, table, m);
      var todo := routers.Keys;
      while todo != {}
        invariant Valid() && owner == old(owner)
        invariant todo <= old(table).Keys
        invariant table == PartlyRemoved(md5, old(table), m, todo)
      {
        var k :| k in todo;
        ghost var before := table;
        RemoveFrom(k, m);
        PartlyRemovedStep(md5, old(table), m, k, todo, before, table);
        todo := todo - {k};
      }
    }

    method RemoveFrom(k: string, m: Match)
      requires Valid() && k in routers
      modifies this, owner.Keys
      ensures Valid() && owner == old(owner)
      ensures table == Refitted(md5, old(table), m, k)
    {
      var addrs := DeleteMatching(routers[k].addrs, m);
      if addrs.len == 0 {
        Delete(k);
      } else {
        var checksum := CalcChecksum(md5, addrs);
        Put(k, Entry(k, addrs, checksum), MakeRouter(md5, k, addrs.Items()));
      }
    }

    method RemoveRouterByHost(node: string)
      requires Valid()
      modifies this, owner.Keys
      ensures Valid() && owner == old(owner)
      ensures table == Apply(md5, old(table), HostFailed(node))
    {
      RemoveMatching(OnNode(node));
    }

    method RemoveRouter(addr: string)
      requires Valid()
      modifies this, owner.Keys
      ensures Valid() && owner == old(owner)
      ensures table == Apply(md5, old(table), Unregistered(addr))
    {
      RemoveMatching(AtAddr(addr));
    }

    method AddRouter(node: string, addr: string, mss: seq<string>)
      requires Valid()
      modifies this, owner.Keys
      ensures Valid() && fresh(owner.Keys - old(owner).Keys)
      ensures table == Apply(md5, old(table), Registered(node, addr, mss))
    {
      RemoveMatching(AtAddr(addr));
      ghost var t := table;
      for i := 0 to |mss|
        invariant Valid() && fresh(owner.Keys - old(owner).Keys)
        invariant table == AddToServices(md5, t, NodeAddr(node, addr), mss[..i])
      {
        assert mss[..i + 1][..i] == mss[..i];
        AddTo(mss[i], NodeAddr(node, addr));
      }
      assert mss[..|mss|] == mss;
    }

    method AddTo(ms: string, x: NodeAddr)
      requires Valid()
      modifies this, owner.Keys
      ensures Valid() && fresh(owner.Keys - old(owner).Keys)
      ensures table == AddToService(md5, old(table), x, ms)
    {
      if ms !in routers {
        var buf := new NodeAddr[1](_ => x);
        var nas := Slice(buf, 1);
        assert nas.Items() == [x];
        var checksum := CalcChecksum(md5, nas);
        Put(ms, Entry(ms, nas, checksum), MakeRouter(md5, ms, [x]));
      } else {
        var isExist := HasAddr(routers[ms].addrs, x.addr);
        if !isExist {
          AppendTo(ms, x);
        }
      }
    }

    method AppendTo(ms: string, x: NodeAddr)
      requires Valid() && ms in routers
      modifies this, owner.Keys
      ensures Valid() && fresh(owner.Keys - old(owner).Keys)
      ensures table == old(table)[ms := MakeRouter(md5, ms, old(table)[ms].addrs + [x])]
    {
      var addrs := Append(routers[ms].addrs, x);
      var checksum := CalcChecksum(md5, addrs);
      Put(ms, Entry(ms, addrs, checksum), MakeRouter(md5, ms, addrs.Items()));
    }

    // Go reads the map in any order.
    method ListRouters() returns (rs: seq<Entry>)
      requires Valid()
      ensures exists ts, ks :: Sync.Listing(ts, table, ks) && Show(rs, ts)
    {
      rs := [];
      ghost var ts, ks := [], [];
      var todo := routers.Keys;
      while todo != {}
        invariant todo <= routers.Keys && Listings.Enumerates(ks, routers.Keys - todo)
        invariant |ts| == |ks| && forall i :: 0 <= i < |ts| ==> ks[i] in table && ts[i] == table[ks[i]]
        invariant Show(rs, ts)
      {
        var k :| k in todo;
        todo := todo - {k};
        rs, ks, ts := rs + [routers[k]], ks + [k], ts + [table[k]];
      }
      assert Sync.Listing(ts, table, ks);
    }

    // The routers arrive decoded from the wire, so each owns its array.
    method UpdateRouters(rs: seq<Entry>, ghost ts: seq<Router>)
      requires Show(rs, ts)
      requires forall i, j :: 0 <= i < j < |rs| ==> rs[i].addrs.buf != rs[j].addrs.buf
      modifies this
      ensures Valid() && table == Sync.FromList(ts)
      ensures Sync.GoodList(md5, ts) ==> Inv(md5, table)
    {
      routers, table, owner := map[], map[], map[];
      for i := 0 to |rs|
        invariant Valid() && table == Sync.FromList(ts[..i])
        invariant forall j :: i <= j < |rs| ==> rs[j].addrs.buf !in owner
      {
        assert ts[..i + 1][..i] == ts[..i];
        Put(rs[i].service, rs[i], ts[i]);
      }
      assert ts[..|rs|] == ts;
      if Sync.GoodList(md5, ts) {
        Sync.GoodListsLoadGoodTables(md5, ts);
      }
    }

    // calcRouterCheckSum, given the cache's answer for the address.
    method CalcRouterCheckSum(app: Option<MicroApp>) returns (checksum: string)
      requires Valid()
      ensures checksum == RefreshChecksum(table, app)
      ensures if app.Some? then SpellsRouted(checksum, table, app.value.consumers)
              else checksum == "00000000000000000000000000000000"
    {
      RefreshReports(table, app);
      checksum := SumConsumed(app);
    }

    method SumConsumed(app: Option<MicroApp>) returns (checksum: string)
      requires Valid()
      ensures checksum == RefreshChecksum(table, app)
    {
      var ck := new int[16](_ => 0);
      IsZero(ck[..]);
      if app.Some? {
        var consumers := app.value.consumers;
        for i := 0 to |consumers|
          invariant ck[..] == AddUp(Routed(table, consumers[..i]))
        {
          RoutedSnoc(table, consumers[..i], consumers[i]);
          assert consumers[..i + 1] == consumers[..i] + [consumers[i]];
          if consumers[i] in routers {
            AddInto(ck, routers[consumers[i]].checksum);
          }
        }
        assert consumers[..|consumers|] == consumers;
      }
      checksum := Hex(ck[..]);
    }

    // rs shows the table's routers of the consumers that idx picks.
    ghost predicate PickedEntries(rs: seq<Entry>, idx: seq<nat>, consumers: seq<string>)
      reads this, set i | 0 <= i < |rs| :: rs[i].addrs.buf
    {
      && Picks(idx, table, consumers) && |rs| == |idx|
      && forall k :: 0 <= k < |rs| ==> rs[k].addrs.Valid() && Shows(rs[k], table[consumers[idx[k]]])
    }

    // calcRouterTable, likewise: first the routers, then the sum of their checksums.
    // The entries are those of the consumed services in the table, which idx picks.
    method CalcRouterTable(app: Option<MicroApp>) returns (rs: seq<Entry>, checksum: string, ghost idx: seq<nat>)
      requires Valid() && app.Some?
      ensures Show(rs, RouterTableOf(table, app).value.routers)
      ensures checksum == RouterTableOf(table, app).value.checksum
      ensures PickedEntries(rs, idx, app.value.consumers)
      ensures if rs == [] then checksum == "" else SpellsRouted(checksum, table, app.value.consumers)
    {
      rs := ConsumedRouters(app.value.consumers);
      checksum := SumIfAny(rs, Routed(table, app.value.consumers));
      idx := RouterTableReports(table, app.value);
    }

    method ConsumedRouters(consumers: seq<string>) returns (rs: seq<Entry>)
      requires Valid()
      ensures Show(rs, Routed(table, consumers))
    {
      rs := [];
      for i := 0 to |consumers|
        invariant Show(rs, Routed(table, consumers[..i]))
      {
        assert consumers[..i + 1][..i] == consumers[..i];
        if consumers[i] in routers {
          rs := rs + [routers[consumers[i]]];
        }
      }
      assert consumers[..|consumers|] == consumers;
    }
  }

  method SumIfAny(rs: seq<Entry>, ghost ts: seq<Router>) returns (checksum: string)
    requires Show(rs, ts)
    ensures checksum == if rs == [] then "" else Hex(AddUp(ts))
  {
    checksum := "";
    if |rs| > 0 {
      checksum := SumChecksums(rs, ts);
    }
  }

  method SumChecksums(rs: seq<Entry>, ghost ts: seq<Router>) returns (checksum: string)
    requires Show(rs, ts)
    ensures checksum == Hex(AddUp(ts))
  {
    var ck := new int[16](_ => 0);
    IsZero(ck[..]);
    for i := 0 to |rs|
      invariant ck[..] == AddUp(ts[..i])
    {
      assert ts[..i + 1][..i] == ts[..i];
      AddInto(ck, rs[i].checksum);
    }
    assert ts[..|rs|] == ts;
    checksum := Hex(ck[..]);
  }

  lemma IsZero(d: seq<int>)
    requires |d| == 16 && forall j :: 0 <= j < 16 ==> d[j] == 0
    ensures d == Zero()
  {}

  lemma RoutedSnoc(t: Table, consumers: seq<string>, c: string)
    ensures AddUp(Routed(t, consumers + [c])) ==
            if c in t then Plus(AddUp(Routed(t, consumers)), t[c].checksum) else AddUp(Routed(t, consumers))
  {
    var rs := Routed(t, consumers);
    assert (consumers + [c])[..|consumers|] == consumers;
    if c in t {
      assert (rs + [t[c]])[..|rs|] == rs;
    } else {
      assert rs + [] == rs;
    }
  }

  ghost predicate Show(rs: seq<Entry>, ts: seq<Router>)
    reads set i | 0 <= i < |rs| :: rs[i].addrs.buf
  {
    && |rs| == |ts|
    && forall i :: 0 <= i < |rs| ==> rs[i].addrs.Valid() && Shows(rs[i], ts[i])
  }
}
