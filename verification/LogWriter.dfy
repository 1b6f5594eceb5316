// The ring of recent log lines and its replay to new handlers:
// command/agent/log_writer.go.
module LogWriter {
  import opened Streams

  type Handler = Stream<string>

  // ---------------------------------------------------------------------
  // The ring on values.

  function Line(p: string): string
    requires p != ""
  {
    if p[|p| - 1] == '\n' then p[..|p| - 1] else p
  }

  // One final newline is taken off; a text without one is kept whole.
  lemma LineMeans(l: string, p: string)
    requires p != ""
    ensures Line(l + "\n") == l
    ensures p[|p| - 1] != '\n' ==> Line(p) == p
  {
    assert (l + "\n")[..|l|] == l;
  }

  // The slots from the oldest to the newest.
  function Rotated(ring: seq<string>, index: nat): seq<string>
    requires index <= |ring|
  {
    ring[index..] + ring[..index]
  }

  function Replay(ring: seq<string>, index: nat): seq<string>
    requires index < |ring|
  {
    (if ring[index] != "" then ring[index..] else []) + ring[..index]
  }

  function Empty(n: nat): seq<string> {
    seq(n, _ => "")
  }

  // k modulo n
  function Remainder(k: nat, n: nat): (r: nat)
    requires n > 0
    ensures r < n
  {
    if k < n then k else Remainder(k - n, n)
  }

  // The ring holds the last lines written, after empty slots if there were few.
  ghost predicate Holds(ring: seq<string>, index: nat, history: seq<string>) {
    && index < |ring|
    && index == Remainder(|history|, |ring|)
    && Rotated(ring, index) == (Empty(|ring|) + history)[|history|..]
  }

  function Next(index: nat, n: nat): nat {
    if index + 1 == n then 0 else index + 1
  }

  lemma WrapIndex(index: nat, n: nat)
    requires index < n
    ensures (index + 1) % n == Next(index, n)
  {}

  lemma {:induction false} NextRemainder(k: nat, n: nat)
    requires n > 0
    ensures Remainder(k + 1, n) == Next(Remainder(k, n), n)
  {
    if k >= n {
      NextRemainder(k - n, n);
    }
  }

  lemma WriteRotates(ring: seq<string>, index: nat, line: string)
    requires index < |ring|
    ensures Rotated(ring[index := line], Next(index, |ring|)) == Rotated(ring, index)[1..] + [line]
  {}

  lemma LastLinesSnoc(n: nat, history: seq<string>, line: string)
    requires n > 0
    ensures (Empty(n) + (history + [line]))[|history| + 1..] == (Empty(n) + history)[|history|..][1..] + [line]
  {}

  lemma WriteHolds(ring: seq<string>, index: nat, history: seq<string>, line: string)
    requires Holds(ring, index, history)
    ensures Holds(ring[index := line], Next(index, |ring|), history + [line])
  {
    NextRemainder(|history|, |ring|);
    WriteRotates(ring, index, line);
    LastLinesSnoc(|ring|, history, line);
  }

  function Min(a: nat, b: nat): nat {
    if a < b then a else b
  }

  predicate OldestIsEmpty(history: seq<string>, n: nat) {
    |history| >= n > 0 && history[|history| - n] == ""
  }

  // What a new handler should be sent when `h` was written: the last min(N, count)
  // lines, unless the oldest line still in a full ring is empty. Then the lines
  // since the ring last wrapped are all it gets.
  function ReplayOf(h: seq<string>, n: nat): seq<string>
    requires n > 0
  {
    if OldestIsEmpty(h, n) then LastLines(h, Remainder(|h|, n)) else LastLines(h, Min(n, |h|))
  }

  function LastLines(h: seq<string>, k: nat): (lines: seq<string>)
    ensures k <= |h| ==> |lines| == k
  {
    if k <= |h| then h[|h| - k..] else h
  }

  lemma ReplayIsSuffix(ring: seq<string>, index: nat, history: seq<string>)
    requires Holds(ring, index, history)
    ensures Replay(ring, index) == ReplayOf(history, |ring|)
  {
    var n, k := |ring|, |history|;
    var padded := Empty(n) + history;
    assert Rotated(ring, index)[0] == padded[k];
    assert ring[..index] == Rotated(ring, index)[n - index..] == padded[k + n - index..] == history[k - index..];
    if k < n {
      assert ring[index] == "";
    } else {
      assert ring[index] == history[k - n];
      if ring[index] != "" {
        assert Rotated(ring, index) == history[k - n..];
      }
    }
  }

  // So the replay is complete iff the ring has not wrapped or its oldest line is
  // not empty.
  lemma ReplayCompleteIff(ring: seq<string>, index: nat, history: seq<string>)
    requires Holds(ring, index, history)
    ensures Replay(ring, index) == LastLines(history, Min(|ring|, |history|))
       <==> !OldestIsEmpty(history, |ring|)
    ensures |Replay(ring, index)| <= |ring|
  {
    ReplayIsSuffix(ring, index, history);
  }

  // With room for one line, writing an empty line is enough to lose it.
  lemma EmptyLineIsNotReplayed()
    ensures Holds([""], 0, [Line("\n")]) && Replay([""], 0) == [] && OldestIsEmpty([Line("\n")], 1)
  {
    assert Rotated([""], 0) == [""];
    assert (Empty(1) + [""])[1..] == [""];
  }

  // ---------------------------------------------------------------------
  // Whole runs, as one handler sees them.

  datatype Op = Write(p: string) | Register | Deregister

  datatype Log = Log(ring: seq<string>, index: nat, registered: bool, got: seq<string>)

  predicate WellFormed(ops: seq<Op>) {
    forall i :: 0 <= i < |ops| && ops[i].Write? ==> ops[i].p != ""
  }

  function After(l: Log, op: Op): Log
    requires l.index < |l.ring| && (op.Write? ==> op.p != "")
  {
    match op
    case Write(p) =>
      Log(l.ring[l.index := Line(p)], Next(l.index, |l.ring|), l.registered,
          if l.registered then l.got + [Line(p)] else l.got)
    case Register => if l.registered then l else l.(registered := true, got := l.got + Replay(l.ring, l.index))
    case Deregister => l.(registered := false)
  }

  function Run(l: Log, ops: seq<Op>): (r: Log)
    requires l.index < |l.ring| && WellFormed(ops)
    ensures r.index < |r.ring| == |l.ring|
    decreases |ops|
  {
    if ops == [] then l else Run(After(l, ops[0]), ops[1..])
  }

  function Written(ops: seq<Op>): seq<string>
    requires WellFormed(ops)
  {
    if ops == [] then []
    else (if ops[0].Write? then [Line(ops[0].p)] else []) + Written(ops[1..])
  }

  lemma {:induction false} RunHolds(l: Log, ops: seq<Op>, history: seq<string>)
    requires WellFormed(ops) && Holds(l.ring, l.index, history)
    ensures Holds(Run(l, ops).ring, Run(l, ops).index, history + Written(ops))
    decreases |ops|
  {
    if ops == [] {
      assert history + [] == history;
    } else if ops[0].Write? {
      var line := Line(ops[0].p);
      WriteHolds(l.ring, l.index, history, line);
      RunHolds(After(l, ops[0]), ops[1..], history + [line]);
      assert history + [line] + Written(ops[1..]) == history + ([line] + Written(ops[1..]));
    } else {
      RunHolds(After(l, ops[0]), ops[1..], history);
      assert [] + Written(ops[1..]) == Written(ops[1..]);
    }
  }

  // While it stays registered a handler receives what is written; while it
  // does not, nothing.
  lemma {:induction false} RunDelivers(l: Log, ops: seq<Op>)
    requires WellFormed(ops) && l.index < |l.ring|
    requires forall i :: 0 <= i < |ops| ==> if l.registered then !ops[i].Deregister? else !ops[i].Register?
    ensures Run(l, ops).registered == l.registered
    ensures Run(l, ops).got == if l.registered then l.got + Written(ops) else l.got
    decreases |ops|
  {
    if ops == [] {
      assert l.got + [] == l.got;
    } else {
      RunDelivers(After(l, ops[0]), ops[1..]);
      if ops[0].Write? {
        assert l.got + [Line(ops[0].p)] + Written(ops[1..]) == l.got + ([Line(ops[0].p)] + Written(ops[1..]));
      } else {
        assert [] + Written(ops[1..]) == Written(ops[1..]);
      }
    }
  }

  function NewLog(n: nat): Log {
    Log(Empty(n), 0, false, [])
  }

  lemma NewLogHolds(n: nat)
    requires n > 0
    ensures Holds(Empty(n), 0, [])
  {}

  // From a new log writer: a handler that is registered after `pre` and
  // deregistered after `mid` receives the replayed suffix of what was written
  // before, then exactly what was written while it was registered.
  lemma HandlerReceivesSuffixThenLines(n: nat, pre: seq<Op>, mid: seq<Op>, post: seq<Op>)
    requires n > 0 && WellFormed(pre) && WellFormed(mid) && WellFormed(post)
    requires forall i :: 0 <= i < |pre| ==> !pre[i].Register?
    requires forall i :: 0 <= i < |mid| ==> !mid[i].Deregister?
    requires forall i :: 0 <= i < |post| ==> !post[i].Register?
    ensures var before := Run(NewLog(n), pre);
            var during := Run(After(before, Register), mid);
            Run(After(during, Deregister), post).got == ReplayOf(Written(pre), n) + Written(mid)
  {
    BeforeRegistering(n, pre);
    var before := Run(NewLog(n), pre);
    Registering(before, Written(pre));
    RunDelivers(After(before, Register), mid);
    var during := Run(After(before, Register), mid);
    RunDelivers(After(during, Deregister), post);
  }

  lemma BeforeRegistering(n: nat, pre: seq<Op>)
    requires n > 0 && WellFormed(pre) && forall i :: 0 <= i < |pre| ==> !pre[i].Register?
    ensures var l := Run(NewLog(n), pre);
            |l.ring| == n && Holds(l.ring, l.index, Written(pre)) && !l.registered && l.got == []
  {
    NewLogHolds(n);
    RunHolds(NewLog(n), pre, []);
    RunDelivers(NewLog(n), pre);
    assert [] + Written(pre) == Written(pre);
  }

  lemma Registering(l: Log, h: seq<string>)
    requires Holds(l.ring, l.index, h) && !l.registered && l.got == []
    ensures After(l, Register).got == ReplayOf(h, |l.ring|)
  {
    ReplayIsSuffix(l.ring, l.index, h);
  }

  // ---------------------------------------------------------------------
  // The object.

  class LogWriter {
    const logs: array<string>
    var index: nat
    var handlers: set<Handler>
    ghost var history: seq<string>

    ghost predicate Valid()
      reads this, logs, handlers
    {
      && Holds(logs[..], index, history)
      && forall lh :: lh in handlers ==> lh.Valid() && lh.stops == 0
    }

    // NewLogWriter. With no room at all the first write would fail.
    constructor (buf: nat)
      requires buf > 0
      ensures Valid() && handlers == {} && history == [] && logs.Length == buf && fresh(logs)
    {
      logs := new string[buf](_ => "");
      index, handlers, history := 0, {}, [];
      new;
      assert logs[..] == Empty(buf);
      NewLogHolds(buf);
    }

    method RegisterHandler(lh: Handler)
      requires Valid() && lh.Valid() && lh.stops == 0
      modifies this`handlers, lh`queue, lh`offered, lh`lost
      ensures Valid() && handlers == old(handlers) + {lh}
      ensures lh.Value() == if lh in old(handlers) then old(lh.Value())
                            else OfferedAll(old(lh.Value()), ReplayOf(history, logs.Length))
      ensures lh.offered == old(lh.offered) + if lh in old(handlers) then [] else Replay(logs[..], index)
      ensures |old(lh.queue)| + logs.Length <= CAPACITY ==> lh.lost == old(lh.lost)
      ensures lh.sent == old(lh.sent)
    {
      if lh in handlers {
        return;
      }
      handlers := handlers + {lh};
      ReplayTo(lh);
    }

    method ReplayTo(lh: Handler)
      requires Holds(logs[..], index, history) && lh.Valid() && lh.stops == 0
      modifies lh`queue, lh`offered, lh`lost
      ensures lh.Valid() && lh.Value() == OfferedAll(old(lh.Value()), ReplayOf(history, logs.Length))
      ensures lh.offered == old(lh.offered) + Replay(logs[..], index)
      ensures |old(lh.queue)| + logs.Length <= CAPACITY ==> lh.lost == old(lh.lost)
    {
      ReplayIsSuffix(logs[..], index, history);
      OfferingAllHears(lh.Value(), Replay(logs[..], index));
      OfferingAllIsFaithful(lh.Value(), Replay(logs[..], index));
      SendReplay(lh);
    }

    method SendReplay(lh: Handler)
      requires index < logs.Length && lh.stops == 0
      modifies lh`queue, lh`offered, lh`lost
      ensures lh.Value() == OfferedAll(old(lh.Value()), Replay(logs[..], index))
      ensures |old(lh.queue)| + logs.Length <= CAPACITY ==> lh.lost == old(lh.lost)
    {
      ghost var ring, was := logs[..], lh.Value();
      SendOlder(lh);
      assert ring[..index] == logs[0..index];
      OfferingAllHears(was, if ring[index] != "" then ring[index..] else []);
      SendLines(lh, 0, index);
      OfferingTwice(was, if ring[index] != "" then ring[index..] else [], ring[..index]);
    }

    method SendOlder(lh: Handler)
      requires index < logs.Length && lh.stops == 0
      modifies lh`queue, lh`offered, lh`lost
      ensures lh.Value() == OfferedAll(old(lh.Value()), if logs[index] != "" then logs[..][index..] else [])
      ensures |lh.queue| <= |old(lh.queue)| + logs.Length - index
      ensures |old(lh.queue)| + logs.Length <= CAPACITY ==> lh.lost == old(lh.lost)
    {
      assert logs[..][index..] == logs[index..logs.Length];
      if logs[index] != "" {
        SendLines(lh, index, logs.Length);
      }
    }

    // The loops that replay a stretch of the ring.
    method SendLines(lh: Handler, from: nat, to: nat)
      requires from <= to <= logs.Length && lh.stops == 0
      modifies lh`queue, lh`offered, lh`lost
      ensures lh.Value() == OfferedAll(old(lh.Value()), logs[from..to])
      ensures |lh.queue| <= |old(lh.queue)| + to - from
      ensures |old(lh.queue)| + to - from <= CAPACITY ==> lh.lost == old(lh.lost)
    {
      ghost var was, lines := lh.Value(), logs[from..to];
      for i := from to to
        invariant lh.Value() == OfferedAll(was, lines[..i - from])
        invariant |lh.queue| <= |was.queue| + i - from && lh.stops == 0
        invariant |was.queue| + to - from <= CAPACITY ==> lh.lost == was.lost
      {
        OfferingOneMore(was, lines[..i - from], logs[i]);
        assert lines[..i + 1 - from] == lines[..i - from] + [logs[i]];
        lh.Handle(logs[i]);
      }
      assert lines[..to - from] == lines;
    }

    method DeregisterHandler(lh: Handler)
      requires Valid()
      modifies this`handlers
      ensures Valid() && handlers == old(handlers) - {lh}
    {
      handlers := handlers - {lh};
    }

    // The caller never writes an empty slice: Go would fail on p[n-1].
    method Write(p: string) returns (n: nat)
      requires Valid() && p != ""
      modifies this`index, this`history, logs, handlers`queue, handlers`offered, handlers`lost
      ensures Valid() && n == |p| && history == old(history) + [Line(p)]
      ensures logs[..] == old(logs[..])[old(index) := Line(p)] && index == Next(old(index), logs.Length)
      ensures forall lh :: lh in handlers ==> lh.Value() == Offered(old(lh.Value()), Line(p))
    {
      n := |p|;
      StoreLine(Line(p));
      SendToAll(Line(p));
    }

    method StoreLine(line: string)
      requires Holds(logs[..], index, history)
      modifies this`index, this`history, logs
      ensures Holds(logs[..], index, history) && history == old(history) + [line]
      ensures logs[..] == old(logs[..])[old(index) := line] && index == Next(old(index), logs.Length)
    {
      WriteHolds(logs[..], index, history, line);
      WrapIndex(index, logs.Length);
      logs[index] := line;
      index := (index + 1) % logs.Length;
      history := history + [line];
    }

    method SendToAll(line: string)
      requires forall lh :: lh in handlers ==> lh.Valid() && lh.stops == 0
      modifies handlers`queue, handlers`offered, handlers`lost
      ensures forall lh :: lh in handlers ==>
                lh.Valid() && lh.stops == 0 && lh.Value() == Offered(old(lh.Value()), line)
    {
      ghost var was := map lh | lh in handlers :: lh.Value();
      HandToAll(line, was);
      forall lh | lh in handlers ensures lh.Valid() {
        OfferingIsFaithful(was[lh], line);
      }
    }

    method HandToAll(line: string, ghost was: map<Handler, Feed<string>>)
      requires forall lh :: lh in handlers ==> lh in was && was[lh] == lh.Value() && lh.stops == 0
      modifies handlers`queue, handlers`offered, handlers`lost
      ensures forall lh :: lh in handlers ==> lh.Value() == Offered(was[lh], line)
    {
      var todo := handlers;
      while todo != {}
        invariant todo <= handlers
        invariant forall lh :: lh in todo ==> lh.Value() == was[lh]
        invariant forall lh :: lh in handlers && lh !in todo ==> lh.Value() == Offered(was[lh], line)
        decreases todo
      {
        var lh :| lh in todo;
        todo := todo - {lh};
        lh.Handle(line);
      }
    }
  }
}
