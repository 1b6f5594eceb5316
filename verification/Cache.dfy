// The expiring cache of discoverd/util/cache/cache.go. Times are integers that
// callers pass in: each argument `now` is one reading of the clock.
module Cache {
  import opened Wrappers

  // One stored item as a value: the object and the instant it expires, if any.
  datatype Entry<V> = Entry(obj: V, expiration: Option<int>) {
    // Strict: an item is still live at its expiry instant.
    predicate Expired(now: int) {
      expiration.Some? && expiration.value < now
    }
  }

  type Store<V> = map<string, Entry<V>>

  // Durations: 0 asks for the default, a positive one expires, others never do.
  function ExpiryAt(deflt: int, d: int, now: int): Option<int> {
    var d := if d == 0 then deflt else d;
    if d > 0 then Some(now + d) else None
  }

  predicate Live<V>(s: Store<V>, k: string, now: int) {
    k in s && !s[k].Expired(now)
  }

  function Stored<V>(s: Store<V>, deflt: int, k: string, x: V, d: int, now: int): Store<V> {
    s[k := Entry(x, ExpiryAt(deflt, d, now))]
  }

  function Refreshed<V>(s: Store<V>, deflt: int, k: string, d: int, now: int): Store<V>
    requires k in s
  {
    s[k := Entry(s[k].obj, ExpiryAt(deflt, d, now))]
  }

  // A sweep whose clock readings start at lo and end at hi may report `gone`:
  // all that had expired at its start, and nothing that is live at its end.
  ghost predicate Sweepable<V>(s: Store<V>, lo: int, hi: int, gone: set<string>) {
    && gone <= s.Keys
    && forall k :: k in s ==> (s[k].Expired(lo) ==> k in gone) && (k in gone ==> s[k].Expired(hi))
  }

  function Reported<V>(s: Store<V>, gone: set<string>): map<string, V> {
    map k | k in s && k in gone :: s[k].obj
  }

  // Where a sweep stands while the keys in `todo` are left to visit.
  ghost predicate Sweeping<V>(was: Store<V>, s: Store<V>, todo: set<string>, dm: map<string, V>, lo: int, hi: int) {
    && todo <= was.Keys
    && s == was - dm.Keys
    && dm == Reported(was, dm.Keys)
    && forall k :: k in was ==>
         if k in todo then k !in dm
         else (was[k].Expired(lo) ==> k in dm) && (k in dm ==> was[k].Expired(hi))
  }

  lemma SweepStep<V>(was: Store<V>, s: Store<V>, todo: set<string>, dm: map<string, V>, lo: int, hi: int,
                     k: string, now: int)
    requires Sweeping(was, s, todo, dm, lo, hi) && k in todo && lo <= now <= hi
    ensures k in s && s[k] == was[k]
    ensures s[k].Expired(now) ==> Sweeping(was, s - {k}, todo - {k}, dm[k := s[k].obj], lo, hi)
    ensures !s[k].Expired(now) ==> Sweeping(was, s, todo - {k}, dm, lo, hi)
  {}

  class Item<V> {
    var obj: V
    var expiration: Option<int>

    constructor (obj: V, expiration: Option<int>)
      ensures this.obj == obj && this.expiration == expiration
    {
      this.obj, this.expiration := obj, expiration;
    }

    function Value(): Entry<V>
      reads this
    {
      Entry(obj, expiration)
    }
  }

  class Cache<V> {
    const defaultExpiration: int
    var items: map<string, Item<V>>
    ghost var store: Store<V>
    ghost var owner: map<Item<V>, string>  // the key each item was made for

    ghost predicate Valid()
      reads this, owner.Keys
    {
      && (forall k :: k in store <==> k in items)
      && forall k :: k in items ==>
           items[k] in owner && owner[items[k]] == k && items[k].Value() == store[k]
    }

    // newCache: a zero default means that items never expire.
    constructor (de: int)
      ensures Valid() && store == map[] && owner == map[]
      ensures defaultExpiration == if de == 0 then -1 else de
    {
      defaultExpiration := if de == 0 then -1 else de;
      items, store, owner := map[], map[], map[];
    }

    method Set(k: string, x: V, d: int, now: int)
      requires Valid()
      modifies this
      ensures Valid() && fresh(owner.Keys - old(owner).Keys)
      ensures store == Stored(old(store), defaultExpiration, k, x, d, now)
      ensures k in store && store[k].obj == x && store == old(store)[k := store[k]]
      ensures store[k].expiration ==
              if d > 0 then Some(now + d)
              else if d == 0 && defaultExpiration > 0 then Some(now + defaultExpiration) else None
    {
      var item := new Item(x, ExpiryAt(defaultExpiration, d, now));
      items := items[k := item];
      store := store[k := item.Value()];
      owner := owner[item := k];
    }

    method Get(k: string, now: int) returns (x: Option<V>)
      requires Valid()
      ensures x == if Live(store, k, now) then Some(store[k].obj) else None
      ensures x.Some? <==> k in store && (store[k].expiration.Some? ==> now <= store[k].expiration.value)
    {
      if k !in items || items[k].Value().Expired(now) {
        return None;
      }
      x := Some(items[k].obj);
    }

    // The clock is read for the liveness test and again for the new expiry.
    method Add(k: string, x: V, d: int, now: int, later: int) returns (ok: bool)
      requires Valid() && now <= later
      modifies this
      ensures Valid() && fresh(owner.Keys - old(owner).Keys)
      ensures ok == !Live(old(store), k, now)
      ensures store == if ok then Stored(old(store), defaultExpiration, k, x, d, later) else old(store)
      ensures !ok <==> k in old(store) && (old(store)[k].expiration.Some? ==> now <= old(store)[k].expiration.value)
      ensures ok ==> k in store && store[k].obj == x && store == old(store)[k := store[k]]
      ensures ok ==> store[k].expiration ==
                     if d > 0 then Some(later + d)
                     else if d == 0 && defaultExpiration > 0 then Some(later + defaultExpiration) else None
    {
      var found := Get(k, now);
      ok := found.None?;
      if ok {
        Set(k, x, d, later);
      }
    }

    method Refresh(k: string, d: int, now: int, later: int) returns (ok: bool)
      requires Valid() && now <= later
      modifies this`store, owner.Keys
      ensures Valid()
      ensures ok == Live(old(store), k, now)
      ensures store == if ok then Refreshed(old(store), defaultExpiration, k, d, later) else old(store)
      ensures ok <==> k in old(store) && (old(store)[k].expiration.Some? ==> now <= old(store)[k].expiration.value)
      ensures ok ==> k in store && store[k].obj == old(store)[k].obj && store == old(store)[k := store[k]]
      ensures ok ==> store[k].expiration ==
                     if d > 0 then Some(later + d)
                     else if d == 0 && defaultExpiration > 0 then Some(later + defaultExpiration) else None
    {
      ok := k in items && !items[k].Value().Expired(now);
      if ok {
        items[k].expiration := ExpiryAt(defaultExpiration, d, later);
        store := store[k := items[k].Value()];
      }
    }

    method Delete(k: string)
      requires Valid()
      modifies this`items, this`store
      ensures Valid() && store == old(store) - {k}
    {
      items := items - {k};
      store := store - {k};
    }

    method Flush()
      requires Valid()
      modifies this`items, this`store
      ensures Valid() && store == map[]
    {
      items, store := map[], map[];
    }

    // `clock` holds the readings between lo and hi, one per item, taken as the
    // loop reaches the items in whatever order Go visits them. The expiry
    // handler is given `dm`.
    method DeleteExpired(clock: seq<int>, lo: int, hi: int) returns (dm: map<string, V>)
      requires Valid() && |clock| == |items|
      requires forall i :: 0 <= i < |clock| ==> lo <= clock[i] <= hi
      modifies this`items, this`store
      ensures Valid()
      ensures Sweepable(old(store), lo, hi, dm.Keys)
      ensures dm == Reported(old(store), dm.Keys)
      ensures store == old(store) - dm.Keys
      ensures forall k :: k in dm ==> k in old(store) && dm[k] == old(store)[k].obj
      ensures forall k :: k in old(store) ==>
                var e := old(store)[k].expiration;
                && (e.Some? && e.value < lo ==> k in dm)
                && (k in dm ==> e.Some? && e.value < hi)
    {
      dm := map[];
      var todo := items.Keys;
      assert |todo| == |items|;
      var i := 0;
      while todo != {}
        invariant Valid() && Sweeping(old(store), store, todo, dm, lo, hi)
        invariant i + |todo| == |clock|
        decreases todo
      {
        var k :| k in todo;
        SweepStep(old(store), store, todo, dm, lo, hi, k, clock[i]);
        todo := todo - {k};
        if items[k].Value().Expired(clock[i]) {
          dm := dm[k := items[k].obj];
          Delete(k);
        }
        i := i + 1;
      }
    }
  }
}
