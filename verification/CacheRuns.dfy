// Whole runs of the cache: what callers see, what becomes of each stored
// item, and when a lease ends.
module CacheRuns {
  import opened Wrappers
  import opened Cache

  datatype Call<V> =
    | Set(k: string, x: V, d: int)
    | Add(k: string, x: V, d: int)
    | Refresh(k: string, d: int)
    | Get(k: string)
    | Delete(k: string)
    | Flush
    | Sweep(gone: set<string>)

  // A call whose clock readings all fall between start and end; the liveness
  // test of Add, Refresh and Get reads `start`, a new expiry counts from `end`.
  datatype Op<V> = Op(start: int, end: int, call: Call<V>)

  datatype Reply<V> = Done | Found(x: Option<V>) | Answer(ok: bool)

  function After<V>(s: Store<V>, deflt: int, op: Op<V>): Store<V> {
    match op.call
    case Set(k, x, d) => Stored(s, deflt, k, x, d, op.end)
    case Add(k, x, d) => if Live(s, k, op.start) then s else Stored(s, deflt, k, x, d, op.end)
    case Refresh(k, d) => if Live(s, k, op.start) then Refreshed(s, deflt, k, d, op.end) else s
    case Get(_) => s
    case Delete(k) => s - {k}
    case Flush => map[]
    case Sweep(gone) => s - gone
  }

  function ReplyTo<V>(s: Store<V>, op: Op<V>): Reply<V> {
    match op.call
    case Add(k, _, _) => Answer(!Live(s, k, op.start))
    case Refresh(k, _) => Answer(Live(s, k, op.start))
    case Get(k) => Found(if Live(s, k, op.start) then Some(s[k].obj) else None)
    case _ => Done
  }

  function Run<V>(s: Store<V>, deflt: int, ops: seq<Op<V>>): Store<V>
    decreases |ops|
  {
    if ops == [] then s else Run(After(s, deflt, ops[0]), deflt, ops[1..])
  }

  // The replies of everything but the sweeps.
  function Replies<V>(s: Store<V>, deflt: int, ops: seq<Op<V>>): seq<Reply<V>>
    decreases |ops|
  {
    if ops == [] then []
    else
      (if ops[0].call.Sweep? then [] else [ReplyTo(s, ops[0])]) + Replies(After(s, deflt, ops[0]), deflt, ops[1..])
  }

  // The same run with the sweeps left out.
  function Calls<V>(ops: seq<Op<V>>): seq<Op<V>> {
    if ops == [] then []
    else (if ops[0].call.Sweep? then [] else [ops[0]]) + Calls(ops[1..])
  }

  // The clock never goes back.
  predicate Timed<V>(ops: seq<Op<V>>, now: int) {
    ops == [] || (now <= ops[0].start <= ops[0].end && Timed(ops[1..], ops[0].end))
  }

  // Every sweep reports what a sweep may report.
  ghost predicate Legal<V>(s: Store<V>, deflt: int, ops: seq<Op<V>>)
    decreases |ops|
  {
    ops == [] ||
    (&& (ops[0].call.Sweep? ==> Sweepable(s, ops[0].start, ops[0].end, ops[0].call.gone))
     && Legal(After(s, deflt, ops[0]), deflt, ops[1..]))
  }

  // ---------------------------------------------------------------------
  // The janitor is invisible.

  // `swept` lacks only items that have expired by now.
  ghost predicate LacksOnlyExpired<V>(swept: Store<V>, plain: Store<V>, now: int) {
    && (forall k :: k in swept ==> k in plain && swept[k] == plain[k])
    && (forall k :: k in plain && k !in swept ==> plain[k].Expired(now))
  }

  lemma StepLacksOnlyExpired<V>(swept: Store<V>, plain: Store<V>, deflt: int, op: Op<V>)
    requires LacksOnlyExpired(swept, plain, op.start) && op.start <= op.end && !op.call.Sweep?
    ensures ReplyTo(swept, op) == ReplyTo(plain, op)
    ensures LacksOnlyExpired(After(swept, deflt, op), After(plain, deflt, op), op.end)
  {}

  lemma {:induction false} SweptRunAnswersAlike<V>(swept: Store<V>, plain: Store<V>, deflt: int,
                                                   ops: seq<Op<V>>, now: int)
    requires LacksOnlyExpired(swept, plain, now) && Timed(ops, now) && Legal(swept, deflt, ops)
    ensures Replies(swept, deflt, ops) == Replies(plain, deflt, Calls(ops))
    decreases |ops|
  {
    if ops != [] {
      var op, rest := ops[0], ops[1..];
      if op.call.Sweep? {
        SweptRunAnswersAlike(After(swept, deflt, op), plain, deflt, rest, op.end);
        assert Calls(ops) == Calls(rest) && Replies(swept, deflt, ops) == Replies(After(swept, deflt, op), deflt, rest);
      } else {
        StepLacksOnlyExpired(swept, plain, deflt, op);
        SweptRunAnswersAlike(After(swept, deflt, op), After(plain, deflt, op), deflt, rest, op.end);
        assert Calls(ops) == [op] + Calls(rest);
        assert ([op] + Calls(rest))[1..] == Calls(rest);
      }
    }
  }

  // Two caches that get the same calls at the same times give the same answers,
  // wherever their janitors sweep.
  lemma JanitorIsInvisible<V>(s: Store<V>, deflt: int, ops: seq<Op<V>>, ops': seq<Op<V>>, now: int)
    requires Timed(ops, now) && Legal(s, deflt, ops)
    requires Timed(ops', now) && Legal(s, deflt, ops')
    requires Calls(ops) == Calls(ops')
    ensures Replies(s, deflt, ops) == Replies(s, deflt, ops')
  {
    SweptRunAnswersAlike(s, s, deflt, ops, now);
    SweptRunAnswersAlike(s, s, deflt, ops', now);
  }

  // ---------------------------------------------------------------------
  // Nothing is lost and nothing is reported twice.

  predicate Stores<V>(s: Store<V>, op: Op<V>) {
    op.call.Set? || (op.call.Add? && !Live(s, op.call.k, op.start))
  }

  // The stores of a run, numbered: stored[n] is what the n-th put in under which
  // key, and current[k] the number of the store that k's item stems from.
  datatype Ledger<V> = Ledger(stored: seq<(string, V)>, current: map<string, nat>)

  function Booked<V>(l: Ledger<V>, s: Store<V>, op: Op<V>): Ledger<V> {
    if Stores(s, op) then
      Ledger(l.stored + [(op.call.k, op.call.x)], l.current[op.call.k := |l.stored|])
    else match op.call
      case Delete(k) => l.(current := l.current - {k})
      case Flush => l.(current := map[])
      case Sweep(gone) => l.(current := l.current - gone)
      case _ => l
  }

  datatype Fate = Overwritten | Deleted | Flushed | Reported

  // What the call makes of the item of the n-th store, if it is cached.
  function FateIn<V>(l: Ledger<V>, s: Store<V>, op: Op<V>, n: nat): Option<Fate>
    requires n < |l.stored|
  {
    var k := l.stored[n].0;
    if k !in l.current || l.current[k] != n then None
    else if Stores(s, op) then if op.call.k == k then Some(Overwritten) else None
    else match op.call
      case Delete(k') => if k' == k then Some(Deleted) else None
      case Flush => Some(Flushed)
      case Sweep(gone) => if k in gone then Some(Fate.Reported) else None
      case _ => None
  }

  function FinalLedger<V>(l: Ledger<V>, s: Store<V>, deflt: int, ops: seq<Op<V>>): Ledger<V>
    decreases |ops|
  {
    if ops == [] then l else FinalLedger(Booked(l, s, ops[0]), After(s, deflt, ops[0]), deflt, ops[1..])
  }

  // All that happens to the item of the n-th store, in order.
  function Fates<V>(l: Ledger<V>, s: Store<V>, deflt: int, ops: seq<Op<V>>, n: nat): seq<Fate>
    decreases |ops|
  {
    if ops == [] then []
    else
      (if n < |l.stored| && FateIn(l, s, ops[0], n).Some? then [FateIn(l, s, ops[0], n).value] else [])
      + Fates(Booked(l, s, ops[0]), After(s, deflt, ops[0]), deflt, ops[1..], n)
  }

  // The ledger knows the store behind every cached item.
  ghost predicate Tracks<V>(l: Ledger<V>, s: Store<V>) {
    && (forall k :: k in l.current <==> k in s)
    && forall k :: k in s ==> l.current[k] < |l.stored| && l.stored[l.current[k]] == (k, s[k].obj)
  }

  predicate IsCurrent<V>(l: Ledger<V>, n: nat) {
    n < |l.stored| && l.stored[n].0 in l.current && l.current[l.stored[n].0] == n
  }

  // The fate of the n-th store is still to come.
  predicate Open<V>(l: Ledger<V>, n: nat) {
    n >= |l.stored| || IsCurrent(l, n)
  }

  lemma BookedTracks<V>(l: Ledger<V>, s: Store<V>, deflt: int, op: Op<V>)
    requires Tracks(l, s)
    ensures Tracks(Booked(l, s, op), After(s, deflt, op))
  {}

  // An item leaves the cache exactly when it meets its fate.
  lemma LeavesWithItsFate<V>(l: Ledger<V>, s: Store<V>, op: Op<V>, n: nat)
    requires Tracks(l, s)
    ensures Open(Booked(l, s, op), n) <==> Open(l, n) && (n < |l.stored| ==> FateIn(l, s, op, n).None?)
    ensures n < |l.stored| && FateIn(l, s, op, n).Some? ==> Open(l, n)
  {}

  lemma {:induction false} RunTracks<V>(l: Ledger<V>, s: Store<V>, deflt: int, ops: seq<Op<V>>, n: nat)
    requires Tracks(l, s)
    ensures Tracks(FinalLedger(l, s, deflt, ops), Run(s, deflt, ops))
    ensures var l' := FinalLedger(l, s, deflt, ops);
            && (Open(l', n) ==> Open(l, n))
            && |Fates(l, s, deflt, ops, n)| == if Open(l, n) && !Open(l', n) then 1 else 0
    decreases |ops|
  {
    if ops != [] {
      BookedTracks(l, s, deflt, ops[0]);
      LeavesWithItsFate(l, s, ops[0], n);
      RunTracks(Booked(l, s, ops[0]), After(s, deflt, ops[0]), deflt, ops[1..], n);
    }
  }

  // Over any run from an empty cache, the item of each store is still cached and
  // nothing has happened to it, or it was overwritten, deleted, flushed or handed
  // to the expiry handler: one of these, once.
  lemma NothingIsLost<V>(deflt: int, ops: seq<Op<V>>, n: nat)
    ensures var s, l := Run(map[], deflt, ops), FinalLedger(Ledger([], map[]), map[], deflt, ops);
            var fates := Fates(Ledger([], map[]), map[], deflt, ops, n);
            && Tracks(l, s)
            && (n < |l.stored| ==> |fates| == if IsCurrent(l, n) then 0 else 1)
  {
    RunTracks(Ledger([], map[]), map[], deflt, ops, n);
  }

  // ---------------------------------------------------------------------
  // Leases: every item lives for ttl after it was last set or refreshed.

  predicate Renews<V>(call: Call<V>, k: string) {
    (call.Set? || call.Refresh?) && call.k == k && call.d == 0
  }

  predicate Disturbs<V>(call: Call<V>, k: string) {
    call.Flush? || ((call.Set? || call.Add? || call.Refresh? || call.Delete?) && call.k == k)
  }

  // From `last` on, k is only ever renewed, never more than ttl after the
  // renewal before. An Add of k may be tried, and fails.
  predicate RenewedInTime<V>(ops: seq<Op<V>>, k: string, ttl: int, last: int) {
    ops == [] ||
    if Renews(ops[0].call, k) then ops[0].start <= last + ttl && RenewedInTime(ops[1..], k, ttl, ops[0].end)
    else
      && ops[0].end <= last + ttl && (!Disturbs(ops[0].call, k) || ops[0].call.Add?)
      && RenewedInTime(ops[1..], k, ttl, last)
  }

  // The start times of the sweeps that report k.
  function ReportTimes<V>(s: Store<V>, deflt: int, ops: seq<Op<V>>, k: string): seq<int>
    decreases |ops|
  {
    if ops == [] then []
    else
      (if ops[0].call.Sweep? && k in ops[0].call.gone then [ops[0].start] else [])
      + ReportTimes(After(s, deflt, ops[0]), deflt, ops[1..], k)
  }

  // Every Get, Add and Refresh of k in the run finds it live.
  ghost predicate FoundThroughout<V>(s: Store<V>, deflt: int, ops: seq<Op<V>>, k: string)
    decreases |ops|
  {
    ops == [] ||
    (var call := ops[0].call;
     && ((call.Get? || call.Add? || call.Refresh?) && call.k == k ==> Live(s, k, ops[0].start))
     && FoundThroughout(After(s, deflt, ops[0]), deflt, ops[1..], k))
  }

  // An item renewed in time is always found and survives every sweep.
  lemma {:induction false} RenewedItemsSurvive<V>(s: Store<V>, ttl: int, ops: seq<Op<V>>,
                                                  k: string, last: int, now: int)
    requires ttl > 0 && k in s && s[k].expiration == Some(last + ttl)
    requires Timed(ops, now) && Legal(s, ttl, ops) && RenewedInTime(ops, k, ttl, last)
    ensures k in Run(s, ttl, ops) && ReportTimes(s, ttl, ops, k) == []
    ensures FoundThroughout(s, ttl, ops, k)
    ensures ops != [] ==> Live(Run(s, ttl, ops), k, ops[|ops| - 1].end)
    decreases |ops|
  {
    if ops != [] {
      var op := ops[0];
      var last' := if Renews(op.call, k) then op.end else last;
      var s' := After(s, ttl, op);
      assert k in s' && s'[k].expiration == Some(last' + ttl);
      RenewedItemsSurvive(s', ttl, ops[1..], k, last', op.end);
    }
  }

  // Every Get of k finds x up to the instant `end`, and nothing after it.
  ghost predicate FoundUntil<V>(s: Store<V>, deflt: int, ops: seq<Op<V>>, k: string, x: V, end: Option<int>)
    decreases |ops|
  {
    ops == [] ||
    (&& (ops[0].call.Get? && ops[0].call.k == k ==>
           ReplyTo(s, ops[0]) == Found(if end.None? || ops[0].start <= end.value then Some(x) else None))
     && FoundUntil(After(s, deflt, ops[0]), deflt, ops[1..], k, x, end))
  }

  predicate LeftAlone<V>(ops: seq<Op<V>>, k: string) {
    forall i :: 0 <= i < |ops| ==> !Disturbs(ops[i].call, k)
  }

  lemma {:induction false} ItemIsFoundUntil<V>(s: Store<V>, deflt: int, ops: seq<Op<V>>, k: string, x: V,
                                               end: Option<int>, now: int)
    requires if k in s then s[k] == Entry(x, end) else end.Some? && end.value < now
    requires Timed(ops, now) && Legal(s, deflt, ops) && LeftAlone(ops, k)
    ensures FoundUntil(s, deflt, ops, k, x, end)
    ensures end.None? ==> k in Run(s, deflt, ops) && ReportTimes(s, deflt, ops, k) == []
    decreases |ops|
  {
    if ops != [] {
      assert LeftAlone(ops[1..], k);
      ItemIsFoundUntil(After(s, deflt, ops[0]), deflt, ops[1..], k, x, end, ops[0].end);
    }
  }

  // An item that is set and then left alone is found for the time asked for: for
  // the duration if it is positive, for the default lifetime if it is zero, and
  // otherwise, or if there is no default, for ever; then no sweep reports it.
  lemma SetItemsLiveAsAsked<V>(s: Store<V>, deflt: int, op: Op<V>, ops: seq<Op<V>>)
    requires op.call.Set? && Timed(ops, op.end) && Legal(After(s, deflt, op), deflt, ops)
    requires LeftAlone(ops, op.call.k)
    ensures var Set(k, x, d) := op.call;
            var end := if d > 0 then Some(op.end + d)
                       else if d == 0 && deflt > 0 then Some(op.end + deflt) else None;
            && FoundUntil(After(s, deflt, op), deflt, ops, k, x, end)
            && (end.None? ==> ReportTimes(After(s, deflt, op), deflt, ops, k) == [])
  {
    var Set(k, x, d) := op.call;
    var end := if d > 0 then Some(op.end + d) else if d == 0 && deflt > 0 then Some(op.end + deflt) else None;
    ItemIsFoundUntil(After(s, deflt, op), deflt, ops, k, x, end, op.end);
  }

  function SweepTimes<V>(ops: seq<Op<V>>): seq<int> {
    if ops == [] then []
    else (if ops[0].call.Sweep? then [ops[0].start] else []) + SweepTimes(ops[1..])
  }

  function FirstAfter(ts: seq<int>, e: int): seq<int> {
    if ts == [] then [] else if ts[0] > e then [ts[0]] else FirstAfter(ts[1..], e)
  }

  // After its last renewal k is left alone; a refresh that comes too late may
  // still be tried, and fails.
  predicate Abandoned<V>(ops: seq<Op<V>>, k: string, e: int) {
    forall i :: 0 <= i < |ops| ==>
      !Disturbs(ops[i].call, k) || (ops[i].call.Refresh? && ops[i].start > e)
  }

  predicate Instantaneous<V>(ops: seq<Op<V>>) {
    forall i :: 0 <= i < |ops| && ops[i].call.Sweep? ==> ops[i].start == ops[i].end
  }

  lemma FirstSweepAfter<V>(ops: seq<Op<V>>, e: int)
    requires ops != []
    ensures FirstAfter(SweepTimes(ops), e) ==
            if ops[0].call.Sweep? && ops[0].start > e then [ops[0].start] else FirstAfter(SweepTimes(ops[1..]), e)
  {
    if ops[0].call.Sweep? {
      assert SweepTimes(ops)[1..] == SweepTimes(ops[1..]);
    } else {
      assert SweepTimes(ops) == SweepTimes(ops[1..]);
    }
  }

  lemma AbandonedStep<V>(s: Store<V>, ttl: int, op: Op<V>, k: string, e: int)
    requires k in s ==> s[k].expiration == Some(e)
    requires !Disturbs(op.call, k) || (op.call.Refresh? && op.start > e)
    requires op.call.Sweep? ==> op.start == op.end && Sweepable(s, op.start, op.end, op.call.gone)
    ensures var s' := After(s, ttl, op);
            && (k in s' ==> k in s && s'[k].expiration == Some(e))
            && (k in s' <==> k in s && !(op.call.Sweep? && op.start > e))
    ensures op.call.Sweep? ==> (k in op.call.gone <==> k in s && op.start > e)
  {}

  // An abandoned item is reported exactly once, by the first sweep after its expiry.
  lemma {:induction false} AbandonedItemsAreReportedOnce<V>(s: Store<V>, ttl: int, ops: seq<Op<V>>,
                                                            k: string, e: int, now: int)
    requires ttl > 0 && (k in s ==> s[k].expiration == Some(e))
    requires Timed(ops, now) && Legal(s, ttl, ops) && Abandoned(ops, k, e) && Instantaneous(ops)
    ensures ReportTimes(s, ttl, ops, k) == if k in s then FirstAfter(SweepTimes(ops), e) else []
    decreases |ops|
  {
    if ops != [] {
      var op, rest := ops[0], ops[1..];
      assert Abandoned(rest, k, e) && Instantaneous(rest);
      AbandonedStep(s, ttl, op, k, e);
      AbandonedItemsAreReportedOnce(After(s, ttl, op), ttl, rest, k, e, op.end);
      FirstSweepAfter(ops, e);
      if op.call.Sweep? && k in op.call.gone {
        assert [op.start] + [] == [op.start];
      }
    }
  }

  // Sweeps at every tick of an ideal ticker.
  predicate Ticks(ts: seq<int>, period: int) {
    forall i :: 0 < i < |ts| ==> ts[i] == ts[i - 1] + period
  }

  // With a janitor that ticks every ttl, that is no earlier than ttl and no
  // later than twice ttl after the last renewal.
  lemma {:induction false} FirstTickAfterExpiry(ts: seq<int>, ttl: int, last: int) returns (x: int)
    requires ttl > 0 && Ticks(ts, ttl) && ts != [] && ts[0] <= last + 2 * ttl && ts[|ts| - 1] > last + ttl
    ensures FirstAfter(ts, last + ttl) == [x] && last + ttl < x <= last + 2 * ttl
  {
    x := ts[0];
    if ts[0] <= last + ttl {
      forall i | 0 < i < |ts[1..]| ensures ts[1..][i] == ts[1..][i - 1] + ttl {
        assert ts[i + 1] == ts[i] + ttl;
      }
      x := FirstTickAfterExpiry(ts[1..], ttl, last);
    }
  }

  lemma LeaseEndsWithinTwoPeriods<V>(s: Store<V>, ttl: int, ops: seq<Op<V>>, k: string, last: int, now: int)
    returns (x: int)
    requires ttl > 0 && k in s && s[k].expiration == Some(last + ttl)
    requires Timed(ops, now) && Legal(s, ttl, ops) && Abandoned(ops, k, last + ttl) && Instantaneous(ops)
    requires var ts := SweepTimes(ops);
             Ticks(ts, ttl) && ts != [] && ts[0] <= last + 2 * ttl && ts[|ts| - 1] > last + ttl
    ensures ReportTimes(s, ttl, ops, k) == [x] && last + ttl < x <= last + 2 * ttl
  {
    AbandonedItemsAreReportedOnce(s, ttl, ops, k, last + ttl, now);
    x := FirstTickAfterExpiry(SweepTimes(ops), ttl, last);
  }
}
