// The two fingerprints an application compares to learn that the routes it
// consumes have changed: the one returned by Refresh and the one returned with
// the router table.
module Fingerprints {
  import opened Digests
  import opened Routers
  import opened Convergence
  import opened Wrappers

  datatype MicroApp = MicroApp(addr: string, providers: seq<string>, consumers: seq<string>)

  datatype RouterTable = RouterTable(routers: seq<Router>, checksum: string)

  lemma {:induction false} KeepConcat(s: seq<NodeAddr>, s': seq<NodeAddr>, m: Match)
    ensures Keep(s + s', m) == Keep(s, m) + Keep(s', m)
  {
    if s == [] {
      assert s + s' == s';
    } else {
      assert (s + s')[1..] == s[1..] + s';
      KeepConcat(s[1..], s', m);
    }
  }

  lemma KeepDropsOne(front: seq<NodeAddr>, x: NodeAddr, back: seq<NodeAddr>)
    requires forall y :: y in front || y in back ==> y.addr != x.addr
    ensures Keep(front + ([x] + back), AtAddr(x.addr)) == front + back
  {
    var m := AtAddr(x.addr);
    KeepConcat(front, [x] + back, m);
    KeepConcat([x], back, m);
    KeepAll(front, x.addr);
    KeepAll(back, x.addr);
    assert Keep([x], m) == [];
  }

  lemma {:induction false} KeepAll(s: seq<NodeAddr>, a: string)
    requires forall y :: y in s ==> y.addr != a
    ensures Keep(s, AtAddr(a)) == s
  {
    if s != [] {
      KeepAll(s[1..], a);
    }
  }

  lemma AddrsOfPieces(front: seq<NodeAddr>, x: NodeAddr, back: seq<NodeAddr>)
    ensures AddrsOf(front + back) == AddrsOf(front) + AddrsOf(back)
    ensures AddrsOf(front + ([x] + back)) == AddrsOf(front) + ([x.addr] + AddrsOf(back))
  {}

  // Removing an address takes exactly its hash off the service's checksum.
  lemma ChecksumAfterRemoval(h: Hash, front: seq<NodeAddr>, x: NodeAddr, back: seq<NodeAddr>)
    requires forall y :: y in front || y in back ==> y.addr != x.addr
    ensures Checksum(h, Keep(front + ([x] + back), AtAddr(x.addr)))
         == Minus(Checksum(h, front + ([x] + back)), h(x.addr))
  {
    KeepDropsOne(front, x, back);
    AddrsOfPieces(front, x, back);
    SumWithout(h, AddrsOf(front), x.addr, AddrsOf(back));
  }

  const HEX_DIGITS := "0123456789abcdef"

  // hex.EncodeToString of the bytes from i on.
  function HexFrom(d: Digest, i: nat): string
    requires i <= 16
    decreases 16 - i
  {
    if i == 16 then "" else [HEX_DIGITS[d[i] / 16], HEX_DIGITS[d[i] % 16]] + HexFrom(d, i + 1)
  }

  function Hex(d: Digest): string {
    HexFrom(d, 0)
  }

  // The routers of the consumed services that exist, in the consumer's order.
  function Routed(t: Table, consumers: seq<string>): seq<Router> {
    if consumers == [] then []
    else
      var n := |consumers| - 1;
      Routed(t, consumers[..n]) + if consumers[n] in t then [t[consumers[n]]] else []
  }

  function AddUp(rs: seq<Router>): Digest {
    if rs == [] then Zero() else Plus(AddUp(rs[..|rs| - 1]), rs[|rs| - 1].checksum)
  }

  // calcRouterCheckSum, given what the cache returned for the address.
  function RefreshChecksum(t: Table, app: Option<MicroApp>): string {
    match app
    case None => Hex(Zero())
    case Some(a) => Hex(AddUp(Routed(t, a.consumers)))
  }

  // calcRouterTable, likewise.
  function RouterTableOf(t: Table, app: Option<MicroApp>): Option<RouterTable> {
    match app
    case None => None
    case Some(a) =>
      var rs := Routed(t, a.consumers);
      Some(RouterTable(rs, if rs == [] then "" else Hex(AddUp(rs))))
  }

  // ---------------------------------------------------------------------
  // What the two answers are, said of the table and the consumers alone.

  // idx lists, in order, exactly the consumed services that are in the table.
  ghost predicate Picks(idx: seq<nat>, t: Table, consumers: seq<string>) {
    && (forall k :: 0 <= k < |idx| ==> idx[k] < |consumers| && consumers[idx[k]] in t)
    && (forall k, l :: 0 <= k < l < |idx| ==> idx[k] < idx[l])
    && (forall i: nat :: i < |consumers| && consumers[i] in t ==> i in idx)
  }

  lemma {:induction false} RoutedPicks(t: Table, consumers: seq<string>) returns (idx: seq<nat>)
    ensures Picks(idx, t, consumers) && |idx| == |Routed(t, consumers)|
    ensures forall k :: 0 <= k < |idx| ==> Routed(t, consumers)[k] == t[consumers[idx[k]]]
  {
    if consumers == [] {
      idx := [];
    } else {
      var n := |consumers| - 1;
      assert consumers == consumers[..n] + [consumers[n]];
      idx := RoutedPicks(t, consumers[..n]);
      PicksSnoc(idx, t, consumers[..n], consumers[n]);
      if consumers[n] in t {
        idx := idx + [n];
      }
    }
  }

  lemma PicksSnoc(idx: seq<nat>, t: Table, consumers: seq<string>, c: string)
    requires Picks(idx, t, consumers)
    ensures Picks(if c in t then idx + [|consumers|] else idx, t, consumers + [c])
  {
    var idx' := if c in t then idx + [|consumers|] else idx;
    forall i: nat | i < |consumers + [c]| && (consumers + [c])[i] in t ensures i in idx' {
      if i < |consumers| {
        assert i in idx;
      }
    }
  }

  // Byte j of the consumed routers' checksums, summed without wrapping.
  function ByteOfRouted(t: Table, consumers: seq<string>, j: nat): int
    requires j < 16
  {
    if consumers == [] then 0
    else
      var n := |consumers| - 1;
      ByteOfRouted(t, consumers[..n], j) + if consumers[n] in t then t[consumers[n]].checksum[j] else 0
  }

  // The value of a lower-case hexadecimal digit, -1 for any other character.
  function HexValue(c: char): int {
    if '0' <= c <= '9' then c as int - '0' as int
    else if 'a' <= c <= 'f' then c as int - 'a' as int + 10
    else -1
  }

  // The two characters from k on are hexadecimal digits of b.
  predicate SpellsByte(s: string, k: nat, b: int)
    requires k + 1 < |s|
  {
    HexValue(s[k]) >= 0 && HexValue(s[k + 1]) >= 0 && 16 * HexValue(s[k]) + HexValue(s[k + 1]) == b
  }

  predicate ByteSpelled(s: string, j: nat, b: int) {
    |s| == 32 && j < 16 && SpellsByte(s, 2 * j, b)
  }

  // s spells the checksums of the consumed routers, added up byte by byte.
  predicate SpellsRouted(s: string, t: Table, consumers: seq<string>) {
    forall j: nat :: j < 16 ==> ByteSpelled(s, j, ByteOfRouted(t, consumers, j) % 256)
  }

  lemma HexDigitValue(x: int)
    requires 0 <= x < 16
    ensures HexValue(HEX_DIGITS[x]) == x
  {}

  lemma {:induction false} HexFromSpells(d: Digest, i: nat, j: nat)
    requires i <= j < 16
    ensures |HexFrom(d, i)| == 2 * (16 - i) && SpellsByte(HexFrom(d, i), 2 * (j - i), d[j])
    decreases 16 - i
  {
    HexFromLength(d, i);
    if i < j {
      HexFromSpells(d, i + 1, j);
      assert HexFrom(d, i)[2..] == HexFrom(d, i + 1);
    } else {
      HexDigitValue(d[i] / 16);
      HexDigitValue(d[i] % 16);
    }
  }

  lemma {:induction false} HexFromLength(d: Digest, i: nat)
    requires i <= 16
    ensures |HexFrom(d, i)| == 2 * (16 - i)
    decreases 16 - i
  {
    if i < 16 {
      HexFromLength(d, i + 1);
    }
  }

  lemma {:induction false} AddUpIsByteTotal(t: Table, consumers: seq<string>, j: nat)
    requires j < 16
    ensures AddUp(Routed(t, consumers))[j] == ByteOfRouted(t, consumers, j) % 256
  {
    if consumers != [] {
      var n := |consumers| - 1;
      var init, c := consumers[..n], consumers[n];
      AddUpIsByteTotal(t, init, j);
      var rs := Routed(t, init);
      if c in t {
        assert (rs + [t[c]])[..|rs|] == rs;
        assert AddUp(Routed(t, consumers)) == Plus(AddUp(rs), t[c].checksum);
        assert AddUp(Routed(t, consumers))[j] == AddByte(AddUp(rs)[j], t[c].checksum[j]);
      } else {
        assert Routed(t, consumers) == rs;
      }
    }
  }

  // Hex writes byte j as two lower-case digits at its place.
  lemma HexSpells(d: Digest, j: nat)
    requires j < 16
    ensures ByteSpelled(Hex(d), j, d[j])
  {
    HexFromLength(d, 0);
    HexFromSpells(d, 0, j);
  }

  lemma FingerprintSpells(t: Table, consumers: seq<string>)
    ensures SpellsRouted(Hex(AddUp(Routed(t, consumers))), t, consumers)
  {
    var d := AddUp(Routed(t, consumers));
    forall j: nat | j < 16 ensures ByteSpelled(Hex(d), j, ByteOfRouted(t, consumers, j) % 256) {
      HexSpells(d, j);
      AddUpIsByteTotal(t, consumers, j);
    }
  }

  // Refresh reports zeros for an application that is not live, and for a live one
  // the fingerprint of what it consumes.
  lemma RefreshReports(t: Table, app: Option<MicroApp>)
    ensures app.None? ==> RefreshChecksum(t, app) == "00000000000000000000000000000000"
    ensures app.Some? ==> SpellsRouted(RefreshChecksum(t, app), t, app.value.consumers)
  {
    if app.Some? {
      FingerprintSpells(t, app.value.consumers);
    } else {
      HexOfZero(0);
    }
  }

  lemma {:induction false} HexOfZero(i: nat)
    requires i <= 16
    ensures HexFrom(Zero(), i) == "00000000000000000000000000000000"[..2 * (16 - i)]
    decreases 16 - i
  {
    if i < 16 {
      HexOfZero(i + 1);
      assert HEX_DIGITS[0] == '0';
    }
  }

  // The router table lists the consumed routers that exist, once per mention and
  // in the consumer's order, with their fingerprint if there are any.
  lemma RouterTableReports(t: Table, app: MicroApp) returns (idx: seq<nat>)
    ensures var rt := RouterTableOf(t, Some(app)).value;
            && Picks(idx, t, app.consumers) && |idx| == |rt.routers|
            && (forall k :: 0 <= k < |idx| ==> rt.routers[k] == t[app.consumers[idx[k]]])
            && (if rt.routers == [] then rt.checksum == "" else SpellsRouted(rt.checksum, t, app.consumers))
  {
    idx := RoutedPicks(t, app.consumers);
    FingerprintSpells(t, app.consumers);
  }

  lemma {:induction false} RoutedNonEmpty(t: Table, consumers: seq<string>)
    ensures Routed(t, consumers) != [] <==> exists c :: c in consumers && c in t
  {
    if consumers != [] {
      var n := |consumers| - 1;
      assert consumers == consumers[..n] + [consumers[n]];
      RoutedNonEmpty(t, consumers[..n]);
    }
  }

  // The two fingerprints of a live application are equal iff it has a routed
  // consumer; otherwise one is hex zeros and the other the empty string.
  lemma FingerprintsMatchIffRouted(t: Table, app: MicroApp)
    ensures RefreshChecksum(t, Some(app)) == RouterTableOf(t, Some(app)).value.checksum
       <==> exists c :: c in app.consumers && c in t
  {
    RoutedNonEmpty(t, app.consumers);
    assert Hex(AddUp(Routed(t, app.consumers))) != "";
  }

  // All addresses behind the consumed services, repeated as often as they occur.
  function AllAddrs(t: Table, consumers: seq<string>): seq<string> {
    if consumers == [] then []
    else AllAddrs(t, consumers[..|consumers| - 1]) + AddrsBehind(t, consumers[|consumers| - 1])
  }

  function AddrsBehind(t: Table, service: string): seq<string> {
    if service in t then AddrsOf(t[service].addrs) else []
  }

  // The fingerprint is the checksum of all those addresses taken together.
  lemma {:induction false} FingerprintIsChecksumOfAll(h: Hash, t: Table, consumers: seq<string>)
    requires WellFormedRouters(h, t)
    ensures AddUp(Routed(t, consumers)) == Sum(h, AllAddrs(t, consumers))
  {
    if consumers != [] {
      var n := |consumers| - 1;
      var init, c := consumers[..n], consumers[n];
      FingerprintIsChecksumOfAll(h, t, init);
      if c in t {
        var rs := Routed(t, init);
        assert (rs + [t[c]])[..|rs|] == rs;
        SumConcat(h, AllAddrs(t, init), AddrsOf(t[c].addrs));
      } else {
        assert Routed(t, consumers) == Routed(t, init);
        assert AllAddrs(t, consumers) == AllAddrs(t, init);
      }
    }
  }

  lemma {:induction false} HexFromInjective(d: Digest, d': Digest, i: nat)
    requires i <= 16 && HexFrom(d, i) == HexFrom(d', i)
    ensures d[i..] == d'[i..]
    decreases 16 - i
  {
    if i < 16 {
      var s, s' := HexFrom(d, i), HexFrom(d', i);
      assert s[2..] == HexFrom(d, i + 1) && s'[2..] == HexFrom(d', i + 1);
      HexFromInjective(d, d', i + 1);
      assert s[0] == HEX_DIGITS[d[i] / 16] && s[1] == HEX_DIGITS[d[i] % 16];
      assert s'[0] == HEX_DIGITS[d'[i] / 16] && s'[1] == HEX_DIGITS[d'[i] % 16];
      HexDigitsInjective(d[i] / 16, d'[i] / 16);
      HexDigitsInjective(d[i] % 16, d'[i] % 16);
      assert d[i..] == [d[i]] + d[i + 1..] && d'[i..] == [d'[i]] + d'[i + 1..];
    }
  }

  lemma HexDigitsInjective(a: int, b: int)
    requires 0 <= a < 16 && 0 <= b < 16 && HEX_DIGITS[a] == HEX_DIGITS[b]
    ensures a == b
  {}

  lemma HexInjective(d: Digest, d': Digest)
    ensures Hex(d) == Hex(d') <==> d == d'
  {
    if Hex(d) == Hex(d') {
      HexFromInjective(d, d', 0);
      assert d[0..] == d && d'[0..] == d';
    }
  }

  // Two fingerprints are equal iff the hashes of all addresses behind the
  // consumed services add up alike.
  lemma SameFingerprintIff(h: Hash, t: Table, t': Table, app: MicroApp)
    requires WellFormedRouters(h, t) && WellFormedRouters(h, t')
    ensures RefreshChecksum(t, Some(app)) == RefreshChecksum(t', Some(app)) <==>
            Sum(h, AllAddrs(t, app.consumers)) == Sum(h, AllAddrs(t', app.consumers))
  {
    FingerprintIsChecksumOfAll(h, t, app.consumers);
    FingerprintIsChecksumOfAll(h, t', app.consumers);
    HexInjective(AddUp(Routed(t, app.consumers)), AddUp(Routed(t', app.consumers)));
  }

  // So an address may move between two consumed services unseen: the same
  // multiset of addresses behind all of them gives the same fingerprint.
  lemma FingerprintSeesOnlyTheMultiset(h: Hash, t: Table, t': Table, app: MicroApp)
    requires WellFormedRouters(h, t) && WellFormedRouters(h, t')
    requires multiset(AllAddrs(t, app.consumers)) == multiset(AllAddrs(t', app.consumers))
    ensures RefreshChecksum(t, Some(app)) == RefreshChecksum(t', Some(app))
  {
    SumIgnoresOrder(h, AllAddrs(t, app.consumers), AllAddrs(t', app.consumers));
    SameFingerprintIff(h, t, t', app);
  }

  lemma {:induction false} AgreeingTablesAddUpAlike(t: Table, t': Table, consumers: seq<string>)
    requires Agree(t, t')
    ensures AddUp(Routed(t, consumers)) == AddUp(Routed(t', consumers))
    ensures |Routed(t, consumers)| == |Routed(t', consumers)|
  {
    if consumers != [] {
      var n := |consumers| - 1;
      var init, c := consumers[..n], consumers[n];
      AgreeingTablesAddUpAlike(t, t', init);
      var rs, rs' := Routed(t, init), Routed(t', init);
      if c in t {
        assert (rs + [t[c]])[..|rs|] == rs;
        assert (rs' + [t'[c]])[..|rs'|] == rs';
      } else {
        assert Routed(t, consumers) == rs && Routed(t', consumers) == rs';
      }
    }
  }

  // Replicas that saw the same events in equivalent orders give every
  // application the same fingerprints, so it may poll any of them.
  lemma ReplicasGiveSameFingerprints(h: Hash, t: Table, t': Table, from: seq<Event>, to: seq<Event>,
                                     p: seq<nat>, q: seq<nat>, app: MicroApp)
    requires Inv(h, t) && Inv(h, t') && Agree(t, t')
    requires Rearranged(from, to, p, q) && KeepsDependentOrder(to, p)
    ensures RefreshChecksum(Run(h, t, from), Some(app)) == RefreshChecksum(Run(h, t', to), Some(app))
    ensures RouterTableOf(Run(h, t, from), Some(app)).value.checksum
         == RouterTableOf(Run(h, t', to), Some(app)).value.checksum
  {
    ReplicasConverge(h, t, t', from, to, p, q);
    AgreeingTablesAddUpAlike(Run(h, t, from), Run(h, t', to), app.consumers);
  }
}
