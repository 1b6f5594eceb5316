// The bounded queues between the agent and a client's connection:
// command/agent/ipc_event_stream.go and command/agent/ipc_log_stream.go.
module Streams {
  import opened EventHandler
  import opened EventFilters

  const CAPACITY := 512

  // a is b with some elements left out.
  ghost predicate Subsequence<T>(a: seq<T>, b: seq<T>) {
    if b == [] then a == []
    else
      var b' := b[..|b| - 1];
      Subsequence(a, b') || (a != [] && a[|a| - 1] == b[|b| - 1] && Subsequence(a[..|a| - 1], b'))
  }

  lemma {:induction false} SubsequenceFacts<T>(a: seq<T>, b: seq<T>)
    requires Subsequence(a, b)
    ensures |a| <= |b| && (|a| == |b| ==> a == b)
    ensures a != [] ==> Subsequence(a[..|a| - 1], b)
  {
    if b != [] {
      var b' := b[..|b| - 1];
      if Subsequence(a, b') {
        SubsequenceFacts(a, b');
      } else {
        var a' := a[..|a| - 1];
        SubsequenceFacts(a', b');
        assert b == b' + [b[|b| - 1]] && a == a' + [a[|a| - 1]];
      }
    }
  }

  lemma {:induction false} SubsequencePrefix<T>(a: seq<T>, n: nat, b: seq<T>)
    requires n <= |a| && Subsequence(a, b)
    ensures Subsequence(a[..n], b)
    decreases |a|
  {
    if n == |a| {
      assert a[..n] == a;
    } else {
      SubsequenceFacts(a, b);
      assert a[..|a| - 1][..n] == a[..n];
      SubsequencePrefix(a[..|a| - 1], n, b);
    }
  }

  lemma SubsequenceSnoc<T>(a: seq<T>, b: seq<T>, x: T)
    requires Subsequence(a, b)
    ensures Subsequence(a, b + [x]) && Subsequence(a + [x], b + [x])
  {}

  function Matching<T>(accepts: T -> bool, xs: seq<T>): seq<T> {
    if xs == [] then []
    else
      var n := |xs| - 1;
      Matching(accepts, xs[..n]) + if accepts(xs[n]) then [xs[n]] else []
  }

  lemma MatchingSnoc<T>(accepts: T -> bool, xs: seq<T>, x: T)
    ensures Matching(accepts, xs + [x]) == Matching(accepts, xs) + if accepts(x) then [x] else []
    ensures !accepts(x) ==> Matching(accepts, xs + [x]) == Matching(accepts, xs)
  {}

  // What was sent and what is queued are, in order, among the matching values,
  // and `lost` counts those that are missing.
  ghost predicate InOrder<T>(sent: seq<T>, queue: seq<T>, matching: seq<T>, lost: nat) {
    Subsequence(sent + queue, matching) && |sent| + |queue| + lost == |matching|
  }

  lemma OfferKeepsOrder<T>(sent: seq<T>, queue: seq<T>, matching: seq<T>, lost: nat, x: T)
    requires InOrder(sent, queue, matching, lost)
    ensures InOrder(sent, queue + [x], matching + [x], lost)
    ensures InOrder(sent, queue, matching + [x], lost + 1)
  {
    SubsequenceSnoc(sent + queue, matching, x);
    assert sent + (queue + [x]) == (sent + queue) + [x];
  }

  lemma SendKeepsOrder<T>(sent: seq<T>, queue: seq<T>, matching: seq<T>, lost: nat)
    requires InOrder(sent, queue, matching, lost) && queue != []
    ensures InOrder(sent + [queue[0]], queue[1..], matching, lost)
  {
    assert sent + [queue[0]] + queue[1..] == sent + queue;
  }

  // What becomes of the values that a stream's handler is called with: those it
  // accepts are queued, or lost when the queue is full, and then sent in order
  // until a send fails. `stops` counts how often the queue was closed; Go panics
  // on the second time, and on a send after the first.
  datatype Feed<!T> = Feed(accepts: T -> bool, offered: seq<T>, queue: seq<T>, sent: seq<T>, lost: nat,
                           failed: bool, stops: nat)

  function NewFeed<T>(accepts: T -> bool): Feed<T> {
    Feed(accepts, [], [], [], 0, false, 0)
  }

  function Offered<T>(f: Feed<T>, x: T): Feed<T> {
    var f' := f.(offered := f.offered + [x]);
    if !f.accepts(x) then f'
    else if |f.queue| < CAPACITY then f'.(queue := f.queue + [x])
    else f'.(lost := f.lost + 1)
  }

  function OfferedAll<T>(f: Feed<T>, xs: seq<T>): Feed<T> {
    if xs == [] then f else Offered(OfferedAll(f, xs[..|xs| - 1]), xs[|xs| - 1])
  }

  function Forwarded<T>(f: Feed<T>, sendFails: bool): Feed<T>
    requires f.queue != []
  {
    var f' := f.(queue := f.queue[1..], failed := sendFails);
    if sendFails then f' else f'.(sent := f.sent + [f.queue[0]])
  }

  ghost predicate Faithful<T>(f: Feed<T>) {
    && |f.queue| <= CAPACITY
    && Subsequence(f.sent, Matching(f.accepts, f.offered))
    && (!f.failed ==> InOrder(f.sent, f.queue, Matching(f.accepts, f.offered), f.lost))
  }

  lemma OfferingIsFaithful<T>(f: Feed<T>, x: T)
    requires Faithful(f)
    ensures Faithful(Offered(f, x))
  {
    var matching := Matching(f.accepts, f.offered);
    MatchingSnoc(f.accepts, f.offered, x);
    if f.accepts(x) {
      SubsequenceSnoc(f.sent, matching, x);
      if !f.failed {
        OfferKeepsOrder(f.sent, f.queue, matching, f.lost, x);
      }
    }
  }

  lemma OfferingOneMore<T>(f: Feed<T>, xs: seq<T>, x: T)
    ensures OfferedAll(f, xs + [x]) == Offered(OfferedAll(f, xs), x)
  {
    assert (xs + [x])[..|xs|] == xs;
  }

  lemma {:induction false} OfferingTwice<T>(f: Feed<T>, xs: seq<T>, ys: seq<T>)
    ensures OfferedAll(OfferedAll(f, xs), ys) == OfferedAll(f, xs + ys)
  {
    if ys == [] {
      assert xs + ys == xs;
    } else {
      OfferingTwice(f, xs, ys[..|ys| - 1]);
      assert (xs + ys)[..|xs + ys| - 1] == xs + ys[..|ys| - 1];
    }
  }

  lemma {:induction false} OfferingAllIsFaithful<T>(f: Feed<T>, xs: seq<T>)
    requires Faithful(f)
    ensures Faithful(OfferedAll(f, xs))
  {
    if xs != [] {
      var n := |xs| - 1;
      OfferingAllIsFaithful(f, xs[..n]);
      OfferingIsFaithful(OfferedAll(f, xs[..n]), xs[n]);
    }
  }

  lemma {:induction false} OfferingAllHears<T>(f: Feed<T>, xs: seq<T>)
    ensures var f' := OfferedAll(f, xs);
            && f'.accepts == f.accepts && f'.offered == f.offered + xs && f'.sent == f.sent
            && f'.stops == f.stops && f'.failed == f.failed
  {
    if xs != [] {
      OfferingAllHears(f, xs[..|xs| - 1]);
      assert xs == xs[..|xs| - 1] + [xs[|xs| - 1]];
    }
  }

  lemma ForwardingIsFaithful<T>(f: Feed<T>, sendFails: bool)
    requires Faithful(f) && !f.failed && f.queue != []
    ensures Faithful(Forwarded(f, sendFails))
  {
    var matching, x := Matching(f.accepts, f.offered), f.queue[0];
    SendKeepsOrder(f.sent, f.queue, matching, f.lost);
    SubsequencePrefix(f.sent + f.queue, |f.sent| + 1, matching);
    assert (f.sent + f.queue)[..|f.sent| + 1] == f.sent + [x];
  }

  // Nothing was dropped iff what was sent and what is queued are, in order, all
  // that matched.
  lemma CompleteIffNothingLost<T>(f: Feed<T>)
    requires Faithful(f) && !f.failed
    ensures f.lost == 0 <==> f.sent + f.queue == Matching(f.accepts, f.offered)
  {
    SubsequenceFacts(f.sent + f.queue, Matching(f.accepts, f.offered));
  }

  class IPCClient {
    var logStreamer: Stream?<string>
    var eventStreams: map<nat, Stream<SerfEvent>>

    constructor ()
      ensures logStreamer == null && eventStreams == map[]
    {
      logStreamer, eventStreams := null, map[];
    }
  }

  // An event stream or a log stream of a client.
  class Stream<T> {
    const client: IPCClient
    const id: nat
    const accepts: T -> bool
    var queue: seq<T>
    var stops: nat
    var failed: bool       // a send failed and the streaming goroutine returned
    var sent: seq<T>       // the records sent to the client
    ghost const number: nat    // how many streams were made before it
    ghost var offered: seq<T>  // everything the handler was called with
    ghost var lost: nat        // matching values dropped because the queue was full

    ghost function Value(): Feed<T>
      reads this
    {
      Feed(accepts, offered, queue, sent, lost, failed, stops)
    }

    ghost predicate Valid()
      reads this
    {
      Faithful(Value())
    }

    constructor (client: IPCClient, id: nat, accepts: T -> bool, ghost number: nat)
      ensures this.client == client && this.id == id && this.number == number
      ensures Valid() && Value() == NewFeed(accepts)
    {
      this.client, this.id, this.accepts, this.number := client, id, accepts, number;
      queue, sent, offered, lost, stops, failed := [], [], [], 0, 0, false;
    }

    // HandleEvent and HandleLog: a send that does not block.
    method Handle(x: T)
      requires stops == 0
      modifies this`queue, this`offered, this`lost
      ensures Value() == Offered(old(Value()), x)
      ensures offered == old(offered) + [x]
      ensures queue == if accepts(x) && |old(queue)| < 512 then old(queue) + [x] else old(queue)
      ensures lost == old(lost) + if accepts(x) && |old(queue)| >= 512 then 1 else 0
    {
      offered := offered + [x];
      if accepts(x) {
        if |queue| < CAPACITY {
          queue := queue + [x];
        } else {
          lost := lost + 1;
        }
      }
    }

    // One turn of the streaming loop; sendFails says what Send reported. What is
    // queued when the queue is closed is still sent.
    method StreamNext(sendFails: bool)
      requires Valid() && !failed && queue != []
      modifies this`queue, this`sent, this`failed
      ensures Valid() && Value() == Forwarded(old(Value()), sendFails)
      ensures failed == sendFails && queue == old(queue)[1..]
      ensures sent == if sendFails then old(sent) else old(sent) + [old(queue)[0]]
    {
      ForwardingIsFaithful(Value(), sendFails);
      if sendFails {
        failed := true;
      } else {
        sent := sent + [queue[0]];
      }
      queue := queue[1..];
    }

    method Stop()
      requires Valid() && stops == 0
      modifies this`stops
      ensures Valid() && Value() == old(Value()).(stops := 1)
    {
      stops := stops + 1;
    }
  }

  // The loop over the filters: the first that matches decides.
  method Matches(filters: seq<EventFilter>, e: SerfEvent) returns (ok: bool)
    ensures ok <==> exists f :: f in filters && f.Invoke(e)
    ensures ok == AnyOf(filters)(e)
  {
    for i := 0 to |filters|
      invariant forall f :: f in filters[..i] ==> !f.Invoke(e)
    {
      if filters[i].Invoke(e) {
        return true;
      }
    }
    assert filters[..|filters|] == filters;
    ok := false;
  }

  // What an event stream with these filters accepts.
  function AnyOf(filters: seq<EventFilter>): SerfEvent -> bool {
    e => exists f | f in filters :: f.Invoke(e)
  }

  // ---------------------------------------------------------------------
  // The answers to a query: command/agent/ipc_query_response_stream.go.

  // What the select of the streaming loop picks next.
  datatype Arrival = AckFrom(node: string) | ResponseFrom(node: string, payload: string) | Deadline

  datatype QueryRecord = Ack(node: string) | Response(node: string, payload: string) | Done

  function RecordOf(a: Arrival): QueryRecord {
    match a
    case AckFrom(n) => Ack(n)
    case ResponseFrom(n, p) => Response(n, p)
    case Deadline => Done
  }

  // The records due for a series of arrivals; the deadline ends it.
  function DueRecords(arrivals: seq<Arrival>): seq<QueryRecord> {
    if arrivals == [] then []
    else [RecordOf(arrivals[0])] + if arrivals[0].Deadline? then [] else DueRecords(arrivals[1..])
  }

  // The records are those of the arrivals, one for one and in order, up to the
  // first deadline.
  lemma {:induction false} DueRecordsFollow(arrivals: seq<Arrival>, i: nat)
    requires i < |DueRecords(arrivals)|
    ensures i < |arrivals| && (i > 0 ==> !arrivals[i - 1].Deadline?)
    ensures arrivals[i].AckFrom? ==> DueRecords(arrivals)[i] == Ack(arrivals[i].node)
    ensures arrivals[i].ResponseFrom? ==> DueRecords(arrivals)[i] == Response(arrivals[i].node, arrivals[i].payload)
    ensures arrivals[i].Deadline? ==> DueRecords(arrivals)[i] == Done && i == |DueRecords(arrivals)| - 1
    ensures !arrivals[i].Deadline? && i + 1 < |arrivals| ==> i + 1 < |DueRecords(arrivals)|
  {
    if i > 0 {
      DueRecordsFollow(arrivals[1..], i - 1);
    }
  }

  // `canSend` is the number of records that can be sent before Send fails.
  method StreamQuery(arrivals: seq<Arrival>, canSend: nat) returns (sent: seq<QueryRecord>)
    ensures var due := DueRecords(arrivals);
            sent == if canSend <= |due| then due[..canSend] else due
  {
    sent := [];
    for i := 0 to |arrivals|
      invariant DueRecords(arrivals) == sent + DueRecords(arrivals[i..]) && |sent| <= canSend
    {
      if |sent| == canSend {
        assert DueRecords(arrivals)[..canSend] == sent;
        return;
      }
      assert arrivals[i..][1..] == arrivals[i + 1..];
      sent := sent + [RecordOf(arrivals[i])];
      if arrivals[i].Deadline? {
        return;
      }
    }
  }

  // The done record is sent at most once, as the last, and only for a deadline.
  lemma {:induction false} DoneIsLast(arrivals: seq<Arrival>, i: nat)
    requires i < |DueRecords(arrivals)|
    ensures DueRecords(arrivals)[i].Done? <==> i == |DueRecords(arrivals)| - 1 && Deadline in arrivals
  {
    if !arrivals[0].Deadline? {
      assert arrivals == [arrivals[0]] + arrivals[1..];
      if i > 0 {
        DoneIsLast(arrivals[1..], i - 1);
      } else if DueRecords(arrivals[1..]) == [] {
        assert arrivals[1..] == [];
      }
    }
  }
}
