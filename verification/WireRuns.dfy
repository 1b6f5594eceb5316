// Whole sessions over one connection: calls, subscriptions and their records
// in any interleaving.
module WireRuns {
  import opened Wrappers
  import opened Wire

  datatype State = State(
    // the client; the requests in `unsent` have their handlers, and wait for the
    // lock under which they are written
    last: nat, unsent: map<nat, Request>, reader: Reader, dropped: set<nat>,
    // the two directions of the connection
    requests: seq<Request>, wire: seq<Token>,
    // the agent's session; `live` holds every subscription that may still send
    // a record, the stopped ones included until their queue is empty
    monitor: Option<nat>, streams: set<nat>, live: map<nat, Command>)

  datatype Step =
    | Begin(cmd: Command, target: nat)  // getSeq and handleSeq
    | Send(id: nat)
    | Serve(ok: bool, err: string)      // the agent handles the next request
    | Push(id: nat, rec: Record)        // a stream's goroutine sends a record
    | Expire(id: nat)                   // a stopped stream has sent its last record
    | Read                              // one turn of the client's listen
    | Return(id: nat)                   // a call that has its response returns
    | Drop(id: nat)                     // Stop: the client deregisters whatever has the given number

  function Initial(dec: Decoder): State {
    State(0, map[], Reader(dec, map[], 0), {}, [], [], None, {}, map[])
  }

  // Whether the agent accepts a subscription; `ok` covers the checks on the
  // request itself and on the query that it starts.
  predicate Accepted(st: State, r: Request, ok: bool) {
    ok && (r.cmd.Monitor? ==> st.monitor.None?) && (r.cmd.StreamEvents? ==> r.id !in st.streams)
  }

  predicate Enabled(st: State, step: Step) {
    var d := st.reader.dispatch;
    match step
    case Begin(_, _) => true
    case Send(id) => id in st.unsent
    case Serve(ok, err) =>
      // No command fails with the words of the authentication error.
      st.requests != [] && err != AUTH_REQUIRED
    case Push(id, rec) => id in st.live && Accepts(st.live[id], rec)
    case Expire(id) => id in st.live && st.monitor != Some(id) && id !in st.streams && !st.live[id].Query?
    case Read => st.wire != [] && ReadFrame(st.reader, st.wire).Some?
    case Return(id) => id in d && d[id].Call? && d[id].answered
    case Drop(id) => id in d
  }

  function Reply(r: Request, err: string): seq<Token> {
    [Header(r.id, err)] + if AgentSendsBody(r.cmd) then [Body(Result(r.cmd))] else []
  }

  function RecordFrame(id: nat, rec: Record): seq<Token> {
    [Header(id, ""), Body(rec)]
  }

  function Next(st: State, step: Step): State
    requires Enabled(st, step)
  {
    match step
    case Begin(c, target) =>
      var id := st.last + 1;
      st.(last := id, reader := st.reader.Set(id, NewHandler(c)), unsent := st.unsent[id := Request(id, c, target)])
    case Send(id) => st.(unsent := st.unsent - {id}, requests := st.requests + [st.unsent[id]])
    case Serve(ok, err) =>
      var r := st.requests[0];
      var st' := st.(requests := st.requests[1..], wire := st.wire + Reply(r, err));
      if r.cmd.Stop? then
        st'.(monitor := if st.monitor == Some(r.target) then None else st.monitor, streams := st.streams - {r.target})
      else if Subscribes(r.cmd) && Accepted(st, r, ok) then
        st'.(live := st.live[r.id := r.cmd],
             monitor := if r.cmd.Monitor? then Some(r.id) else st.monitor,
             streams := if r.cmd.StreamEvents? then st.streams + {r.id} else st.streams)
      else st'
    case Push(id, rec) =>
      st.(wire := st.wire + RecordFrame(id, rec), live := if rec.QueryDone? then st.live - {id} else st.live)
    case Expire(id) => st.(live := st.live - {id})
    case Read =>
      var (c, rest) := ReadFrame(st.reader, st.wire).value;
      st.(reader := c, wire := rest)
    case Return(id) => st.(reader := st.reader.Remove(id))
    case Drop(id) => st.(reader := st.reader.Remove(id), dropped := st.dropped + {id})
  }

  // ---------------------------------------------------------------------
  // Numbers: each request is unsent, on its way or served.

  ghost predicate Queued(rs: seq<Request>, id: nat) {
    exists i :: 0 <= i < |rs| && rs[i].id == id
  }

  ghost predicate Distinct(rs: seq<Request>) {
    forall i, j :: 0 <= i < j < |rs| ==> rs[i].id != rs[j].id
  }

  ghost predicate Served(st: State, id: nat) {
    0 < id <= st.last && id !in st.unsent && !Queued(st.requests, id)
  }

  ghost predicate Numbered(st: State) {
    && (forall id :: id in st.unsent ==>
          st.unsent[id].id == id && 0 < id <= st.last && !Queued(st.requests, id))
    && (forall i :: 0 <= i < |st.requests| ==> 0 < st.requests[i].id <= st.last)
    && Distinct(st.requests)
    && (forall s :: s in st.live ==> Served(st, s))
  }

  lemma QueuedPop(rs: seq<Request>, id: nat)
    requires rs != []
    ensures Queued(rs, id) <==> rs[0].id == id || Queued(rs[1..], id)
    ensures Distinct(rs) ==> Distinct(rs[1..]) && !Queued(rs[1..], rs[0].id)
  {
    if Queued(rs, id) && rs[0].id != id {
      var i :| 0 <= i < |rs| && rs[i].id == id;
      assert rs[1..][i - 1].id == id;
    }
    if i :| 0 <= i < |rs[1..]| && rs[1..][i].id == rs[0].id {
      assert rs[i + 1].id == rs[0].id;
    }
  }

  lemma QueuedPush(rs: seq<Request>, r: Request, id: nat)
    ensures Queued(rs + [r], id) <==> r.id == id || Queued(rs, id)
    ensures Distinct(rs) && !Queued(rs, r.id) ==> Distinct(rs + [r])
  {
    assert (rs + [r])[|rs|] == r;
    if i :| 0 <= i < |rs| && rs[i].id == id {
      assert (rs + [r])[i].id == id;
    }
  }

  lemma ServedChanges(st: State, step: Step, id: nat)
    requires Numbered(st) && Enabled(st, step)
    ensures Served(Next(st, step), id) <==> Served(st, id) || (step.Serve? && st.requests[0].id == id)
  {
    if step.Send? {
      QueuedPush(st.requests, st.unsent[step.id], id);
    } else if step.Serve? {
      QueuedPop(st.requests, id);
      assert Queued(st.requests, st.requests[0].id);
    }
  }

  lemma SendKeepsNumbers(st: State, step: Step)
    requires Numbered(st) && Enabled(st, step) && step.Send?
    ensures Numbered(Next(st, step))
  {
    var r, st' := st.unsent[step.id], Next(st, step);
    QueuedPush(st.requests, r, 0);
    forall s | s in st'.live ensures Served(st', s) {
      ServedChanges(st, step, s);
    }
    forall id | id in st'.unsent ensures !Queued(st'.requests, id) {
      QueuedPush(st.requests, r, id);
    }
  }

  lemma ServeKeepsNumbers(st: State, step: Step)
    requires Numbered(st) && Enabled(st, step) && step.Serve?
    ensures Numbered(Next(st, step))
  {
    var st' := Next(st, step);
    QueuedPop(st.requests, 0);
    forall s | s in st'.live ensures Served(st', s) {
      ServedChanges(st, step, s);
    }
    forall id | id in st'.unsent ensures !Queued(st'.requests, id) {
      QueuedPop(st.requests, id);
    }
  }

  lemma StepKeepsNumbers(st: State, step: Step)
    requires Numbered(st) && Enabled(st, step)
    ensures Numbered(Next(st, step))
  {
    if step.Send? {
      SendKeepsNumbers(st, step);
    } else if step.Serve? {
      ServeKeepsNumbers(st, step);
    }
  }

  // ---------------------------------------------------------------------
  // The client keeps its place in the byte stream.

  // The client will read everything that is on the wire without meeting
  // anything it does not expect.
  predicate Readable(st: State) {
    Drain(st.reader, st.wire).Some?
  }

  predicate Awaited(d: Dispatch, r: Request) {
    r.id in d && d[r.id] == NewHandler(r.cmd)
  }

  predicate Expected(st: State, d: Dispatch, r: Request) {
    r.id in st.dropped || Awaited(d, r)
  }

  predicate NumbersUpTo(w: seq<Token>, n: nat) {
    forall i :: 0 <= i < |w| && w[i].Header? ==> w[i].id <= n
  }

  lemma SendingNumbers(w: seq<Token>, w': seq<Token>, n: nat)
    requires NumbersUpTo(w, n) && NumbersUpTo(w', n)
    ensures NumbersUpTo(w + w', n)
  {}

  // What the dispatch map d will be by then, compared with the agent's side.
  ghost predicate Settled(st: State, d: Dispatch) {
    && Numbered(st) && st.reader.at <= st.last
    && NumbersUpTo(st.wire, st.last)
    && (forall s :: s in st.reader.dispatch ==> 0 < s <= st.last)
    && (forall s :: s in st.dropped ==> s !in d && 0 < s <= st.last)
    && (forall id :: id in st.unsent ==> Expected(st, d, st.unsent[id]))
    && (forall i :: 0 <= i < |st.requests| ==> Expected(st, d, st.requests[i]))
    && (forall s :: s in st.live ==> s in st.dropped || (s in d && d[s] == Sub(st.live[s], true)))
  }

  ghost predicate InSync(st: State) {
    Readable(st) && Settled(st, Drain(st.reader, st.wire).value.dispatch)
  }

  // A step that leaves nothing without a handler that needs one: a record needs
  // one when the decoder is strict, a response object always does.
  ghost predicate Orderly(st: State, step: Step)
    requires Enabled(st, step)
  {
    match step
    case Serve(_, _) => st.requests[0].id in st.dropped ==> !AgentSendsBody(st.requests[0].cmd)
    case Push(id, _) => st.reader.dec.Tolerant? || id !in st.dropped
    case Drop(id) => !Orphans(st.reader.dec, st.wire, id)
    case _ => true
  }

  lemma BeginSettles(st: State, step: Step, d: Dispatch)
    requires Settled(st, d) && step.Begin?
    ensures Settled(Next(st, step), d[st.last + 1 := NewHandler(step.cmd)])
  {
    StepKeepsNumbers(st, step);
    var st', d' := Next(st, step), d[st.last + 1 := NewHandler(step.cmd)];
    forall i | 0 <= i < |st'.requests| ensures Expected(st', d', st'.requests[i]) {
      assert Expected(st, d, st.requests[i]);
    }
    forall id | id in st.unsent ensures Expected(st', d', st.unsent[id]) {
      assert Expected(st, d, st.unsent[id]);
    }
  }

  lemma BeginIsRead(st: State, step: Step)
    requires InSync(st) && step.Begin?
    ensures var st' := Next(st, step);
            Drain(st'.reader, st'.wire) ==
            Some(Drain(st.reader, st.wire).value.Set(st.last + 1, NewHandler(step.cmd)))
  {
    assert !Mentions(st.wire, st.last + 1);
    DrainIgnores(st.reader, st.wire, st.last + 1, NewHandler(step.cmd));
  }

  lemma BeginKeepsSync(st: State, step: Step)
    requires InSync(st) && step.Begin?
    ensures InSync(Next(st, step))
  {
    BeginIsRead(st, step);
    BeginSettles(st, step, Drain(st.reader, st.wire).value.dispatch);
  }

  lemma SendKeepsSync(st: State, step: Step)
    requires InSync(st) && step.Send? && Enabled(st, step)
    ensures InSync(Next(st, step))
  {
    StepKeepsNumbers(st, step);
  }

  function Answered(c: Command): Handler {
    if Subscribes(c) then Sub(c, true) else Call(c, true)
  }

  // A response is read by the handler that waits for it: both ends agree on
  // whether it has a body. Without the handler only the header can be read.
  lemma ReplyIsRead(c: Reader, r: Request, err: string)
    requires r.id in c.dispatch ==> Awaited(c.dispatch, r)
    requires err != AUTH_REQUIRED
    ensures Drain(c, Reply(r, err)) ==
            if r.id in c.dispatch then Some(c.Set(r.id, Answered(r.cmd)).(at := r.id))
            else if AgentSendsBody(r.cmd) then None else Some(c.(at := r.id))
  {
    if r.id !in c.dispatch && AgentSendsBody(r.cmd) {
      assert Reply(r, err)[1..] == [Body(Result(r.cmd))];
    }
  }

  // So is a record. Without a handler it is read only by a decoder that skips it.
  lemma RecordIsRead(c: Reader, id: nat, cmd: Command, rec: Record)
    requires Accepts(cmd, rec) && (id in c.dispatch ==> c.dispatch[id] == Sub(cmd, true))
    ensures Drain(c, RecordFrame(id, rec)) ==
            if id in c.dispatch then Some((if rec.QueryDone? then c.Remove(id) else c).(at := id))
            else if c.dec.Tolerant? then Some(c.(at := id)) else None
  {
    var w := RecordFrame(id, rec);
    assert w[1..] == [Body(rec)] && w[2..] == [] && [Body(rec)][1..] == [];
    if id in c.dispatch {
      var c' := (if rec.QueryDone? then c.Remove(id) else c).(at := id);
      assert c.dispatch[id := c.dispatch[id]] == c.dispatch;
      assert ReadFrame(c, w) == Some((c', []));
    } else {
      var c' := c.(at := id);
      assert ReadFrame(c, w) == Some((c', [Body(rec)]));
      assert Drain(c', [Body(rec)]) == if c.dec.Tolerant? then Some(c') else None;
    }
  }

  function AfterReply(d: Dispatch, r: Request): Dispatch {
    if r.id in d then d[r.id := Answered(r.cmd)] else d
  }

  // The requests that are left have other numbers.
  lemma ServeLeavesTheOthers(st: State, step: Step, d: Dispatch)
    requires Settled(st, d) && step.Serve? && Enabled(st, step)
    ensures var st', d' := Next(st, step), AfterReply(d, st.requests[0]);
            && (forall i :: 0 <= i < |st'.requests| ==> Expected(st', d', st'.requests[i]))
            && (forall id :: id in st'.unsent ==> Expected(st', d', st'.unsent[id]))
  {
    var r, st', d' := st.requests[0], Next(st, step), AfterReply(d, st.requests[0]);
    assert Queued(st.requests, r.id);
    forall i | 0 <= i < |st'.requests| ensures Expected(st', d', st'.requests[i]) {
      assert st'.requests[i] == st.requests[i + 1] && st'.requests[i].id != r.id;
    }
    forall id | id in st'.unsent ensures Expected(st', d', st'.unsent[id]) {
      assert Expected(st, d, st.unsent[id]) && id != r.id;
    }
  }

  lemma ServeSettles(st: State, step: Step, d: Dispatch)
    requires Settled(st, d) && step.Serve? && Enabled(st, step)
    ensures Settled(Next(st, step), AfterReply(d, st.requests[0]))
  {
    var r := st.requests[0];
    StepKeepsNumbers(st, step);
    ServeLeavesTheOthers(st, step, d);
    SendingNumbers(st.wire, Reply(r, step.err), st.last);
    assert Expected(st, d, r) && Queued(st.requests, r.id) && r.id !in st.live;
  }

  lemma ServeIsRead(st: State, step: Step)
    requires InSync(st) && step.Serve? && Enabled(st, step)
    ensures var c, r, st' := Drain(st.reader, st.wire).value, st.requests[0], Next(st, step);
            Drain(st'.reader, st'.wire) ==
            if Orderly(st, step) then Some(Reader(c.dec, AfterReply(c.dispatch, r), r.id)) else None
  {
    var c, r := Drain(st.reader, st.wire).value, st.requests[0];
    assert Expected(st, c.dispatch, r);
    DrainAppend(st.reader, st.wire, Reply(r, step.err));
    ReplyIsRead(c, r, step.err);
  }

  lemma ServeKeepsSyncIff(st: State, step: Step)
    requires InSync(st) && step.Serve? && Enabled(st, step)
    ensures Readable(Next(st, step)) <==> Orderly(st, step)
    ensures Readable(Next(st, step)) ==> InSync(Next(st, step))
  {
    ServeIsRead(st, step);
    ServeSettles(st, step, Drain(st.reader, st.wire).value.dispatch);
  }

  lemma PushSettles(st: State, step: Step, d: Dispatch)
    requires Settled(st, d) && step.Push? && Enabled(st, step)
    ensures Settled(Next(st, step), if step.rec.QueryDone? then d - {step.id} else d)
  {
    StepKeepsNumbers(st, step);
    SendingNumbers(st.wire, RecordFrame(step.id, step.rec), st.last);
  }

  lemma PushKeepsSyncIff(st: State, step: Step)
    requires InSync(st) && step.Push? && Enabled(st, step)
    ensures Readable(Next(st, step)) <==> Orderly(st, step)
    ensures Readable(Next(st, step)) ==> InSync(Next(st, step))
  {
    var c := Drain(st.reader, st.wire).value;
    DrainAppend(st.reader, st.wire, RecordFrame(step.id, step.rec));
    RecordIsRead(c, step.id, st.live[step.id], step.rec);
    PushSettles(st, step, c.dispatch);
    if step.id !in c.dispatch {
      assert c.dispatch - {step.id} == c.dispatch;
    }
  }

  lemma DropSettles(st: State, step: Step, d: Dispatch)
    requires Settled(st, d) && step.Drop? && Enabled(st, step)
    ensures Settled(Next(st, step), d - {step.id})
  {
    StepKeepsNumbers(st, step);
  }

  lemma DropKeepsSyncIff(st: State, step: Step)
    requires InSync(st) && step.Drop? && Enabled(st, step)
    ensures Readable(Next(st, step)) <==> Orderly(st, step)
    ensures Readable(Next(st, step)) ==> InSync(Next(st, step))
  {
    DropIsReadableIff(st.reader, st.wire, step.id);
    DropSettles(st, step, Drain(st.reader, st.wire).value.dispatch);
  }

  // A call that has its response gets no other.
  lemma {:induction false} AnsweredIsNotMentioned(c: Reader, w: seq<Token>, s: nat)
    requires Drain(c, w).Some? && s in c.dispatch && c.dispatch[s].Call? && c.dispatch[s].answered
    ensures !Mentions(w, s)
    decreases |w|
  {
    if w != [] {
      var n := ReadsOneFrame(c, w, s);
      AnsweredIsNotMentioned(ReadFrame(c, w).value.0, w[n..], s);
    }
  }

  lemma ReturnKeepsSync(st: State, step: Step)
    requires InSync(st) && step.Return? && Enabled(st, step)
    ensures InSync(Next(st, step))
  {
    AnsweredIsNotMentioned(st.reader, st.wire, step.id);
    DrainIgnores(st.reader, st.wire, step.id, st.reader.dispatch[step.id]);
    StepKeepsNumbers(st, step);
  }

  lemma ReadKeepsSync(st: State)
    requires InSync(st) && Enabled(st, Read)
    ensures InSync(Next(st, Read))
  {
    StepKeepsNumbers(st, Read);
  }

  // Main theorem, one step: from a state in sync, the client can still read
  // everything after the step iff the step leaves nothing without a handler that
  // needs one.
  lemma StepKeepsSyncIff(st: State, step: Step)
    requires InSync(st) && Enabled(st, step)
    ensures Readable(Next(st, step)) <==> Orderly(st, step)
    ensures Readable(Next(st, step)) ==> InSync(Next(st, step))
    ensures Next(st, step).reader.dec == st.reader.dec
  {
    match step
    case Begin(_, _) => BeginKeepsSync(st, step);
    case Send(_) => SendKeepsSync(st, step);
    case Serve(_, _) => ServeKeepsSyncIff(st, step);
    case Push(_, _) => PushKeepsSyncIff(st, step);
    case Expire(_) => StepKeepsNumbers(st, step);
    case Read => ReadKeepsSync(st);
    case Return(_) => ReturnKeepsSync(st, step);
    case Drop(_) => DropKeepsSyncIff(st, step);
  }

  ghost predicate IsRun(dec: Decoder, sts: seq<State>, steps: seq<Step>) {
    && |sts| == |steps| + 1 && sts[0] == Initial(dec)
    && forall i :: 0 <= i < |steps| ==> FollowsAt(sts, steps, i)
  }

  ghost predicate FollowsAt(sts: seq<State>, steps: seq<Step>, i: nat)
    requires i < |steps| && |sts| == |steps| + 1
  {
    Enabled(sts[i], steps[i]) && sts[i + 1] == Next(sts[i], steps[i])
  }

  ghost predicate OrderlyAt(sts: seq<State>, steps: seq<Step>, i: nat)
    requires i < |steps| <= |sts|
  {
    Enabled(sts[i], steps[i]) && Orderly(sts[i], steps[i])
  }

  lemma InitialIsInSync(dec: Decoder)
    ensures InSync(Initial(dec))
  {}

  lemma {:induction false} OrderlyRunsStayInSync(dec: Decoder, sts: seq<State>, steps: seq<Step>, n: nat)
    requires IsRun(dec, sts, steps) && n <= |steps|
    requires forall i :: 0 <= i < n ==> OrderlyAt(sts, steps, i)
    ensures InSync(sts[n]) && sts[n].reader.dec == dec
  {
    if n == 0 {
      InitialIsInSync(dec);
    } else {
      OrderlyRunsStayInSync(dec, sts, steps, n - 1);
      assert FollowsAt(sts, steps, n - 1) && OrderlyAt(sts, steps, n - 1);
      StepKeepsSyncIff(sts[n - 1], steps[n - 1]);
    }
  }

  // Main theorem, whole runs: while every step is orderly, whatever is on the
  // wire can be read; the first disorderly step is the one that breaks it.
  lemma RunsStayInSync(dec: Decoder, sts: seq<State>, steps: seq<Step>, n: nat)
    requires IsRun(dec, sts, steps) && n <= |steps|
    requires forall i :: 0 <= i < n ==> OrderlyAt(sts, steps, i)
    ensures InSync(sts[n]) && sts[n].reader.dec == dec && (sts[n].wire != [] ==> Enabled(sts[n], Read))
    ensures n < |steps| ==> (Readable(sts[n + 1]) <==> OrderlyAt(sts, steps, n))
  {
    OrderlyRunsStayInSync(dec, sts, steps, n);
    if n < |steps| {
      assert FollowsAt(sts, steps, n);
      StepKeepsSyncIff(sts[n], steps[n]);
    }
  }

  // ---------------------------------------------------------------------
  // Stop as it is meant to be called: with the handle of a subscription whose
  // call has had its response.

  predicate StopsASubscription(st: State, step: Step) {
    step.Drop? ==> var d := st.reader.dispatch; step.id in d && d[step.id].Sub? && d[step.id].init
  }

  ghost predicate DroppedAreServed(st: State) {
    forall s :: s in st.dropped ==> Served(st, s)
  }

  lemma InitialisedIsServed(st: State, s: nat)
    requires InSync(st) && s in st.reader.dispatch && st.reader.dispatch[s].Sub? && st.reader.dispatch[s].init
    requires DroppedAreServed(st)
    ensures Served(st, s)
  {
    DrainAddsNothing(st.reader, st.wire, s);
    var d := Drain(st.reader, st.wire).value.dispatch;
    assert s in st.unsent ==> Expected(st, d, st.unsent[s]);
    forall i | 0 <= i < |st.requests| ensures st.requests[i].id != s {
      assert Expected(st, d, st.requests[i]);
    }
  }

  lemma ProperStepsKeepServed(st: State, step: Step)
    requires InSync(st) && Enabled(st, step) && StopsASubscription(st, step) && DroppedAreServed(st)
    ensures DroppedAreServed(Next(st, step))
  {
    if step.Drop? {
      InitialisedIsServed(st, step.id);
    }
    forall s | s in Next(st, step).dropped ensures Served(Next(st, step), s) {
      ServedChanges(st, step, s);
    }
  }

  // Then only a strict decoder can lose its place, exactly when a record of the
  // subscription is on its way or is sent later.
  lemma ProperStepIsOrderlyIff(st: State, step: Step)
    requires InSync(st) && Enabled(st, step) && StopsASubscription(st, step) && DroppedAreServed(st)
    ensures step.Push? ==> (Orderly(st, step) <==> st.reader.dec.Tolerant? || step.id !in st.dropped)
    ensures step.Drop? ==> (Orderly(st, step) <==> st.reader.dec.Tolerant? || !Mentions(st.wire, step.id))
    ensures !step.Push? && !step.Drop? ==> Orderly(st, step)
  {
    if step.Drop? {
      SubscriptionOrphans(st.reader, st.wire, step.id);
    } else if step.Serve? {
      assert Queued(st.requests, st.requests[0].id);
    }
  }

  // So a client with a tolerant decoder reads on in every such run.
  lemma {:induction false} TolerantRunsStayInSync(sts: seq<State>, steps: seq<Step>, n: nat)
    requires IsRun(Tolerant, sts, steps) && n <= |steps|
    requires forall i :: 0 <= i < n ==> StopsASubscription(sts[i], steps[i])
    ensures InSync(sts[n]) && DroppedAreServed(sts[n]) && sts[n].reader.dec == Tolerant
    ensures sts[n].wire != [] ==> Enabled(sts[n], Read)
  {
    if n == 0 {
      InitialIsInSync(Tolerant);
    } else {
      TolerantRunsStayInSync(sts, steps, n - 1);
      assert FollowsAt(sts, steps, n - 1);
      ProperStepIsOrderlyIff(sts[n - 1], steps[n - 1]);
      ProperStepsKeepServed(sts[n - 1], steps[n - 1]);
      StepKeepsSyncIff(sts[n - 1], steps[n - 1]);
    }
  }

  // ---------------------------------------------------------------------
  // What the agent sends for each request, whatever the client does.

  // The frames with sequence number id that one step sends.
  function FramesOf(st: State, step: Step, id: nat): seq<seq<Token>>
    requires Enabled(st, step)
  {
    match step
    case Serve(_, err) => if st.requests[0].id == id then [Reply(st.requests[0], err)] else []
    case Push(i, rec) => if i == id then [RecordFrame(id, rec)] else []
    case _ => []
  }

  ghost function Frames(dec: Decoder, sts: seq<State>, steps: seq<Step>, n: nat, id: nat): seq<seq<Token>>
    requires IsRun(dec, sts, steps) && n <= |steps|
  {
    if n == 0 then []
    else
      assert FollowsAt(sts, steps, n - 1);
      Frames(dec, sts, steps, n - 1, id) + FramesOf(sts[n - 1], steps[n - 1], id)
  }

  // The commands begun so far; the i-th has sequence number i + 1.
  function Asked(steps: seq<Step>): seq<Command> {
    if steps == [] then []
    else Asked(steps[..|steps| - 1]) + if steps[|steps| - 1].Begin? then [steps[|steps| - 1].cmd] else []
  }

  ghost predicate IsRecord(id: nat, c: Command, f: seq<Token>) {
    && |f| == 2 && f[0] == Header(id, "") && f[1].Body?
    && (var rec := f[1].rec;
        || (c.Monitor? && rec.LogLine?)
        || (c.StreamEvents? && rec.EventRecord?)
        || (c.Query? && (rec.QueryAck? || rec.QueryResponse? || rec.QueryDone?)))
  }

  predicate IsDone(f: seq<Token>) {
    |f| == 2 && f[1] == Body(QueryDone)
  }

  // A call gets one response, with a body iff the client decodes one. A
  // subscription gets a response without a body, then records; nothing follows
  // a query's done record.
  ghost predicate Shape(id: nat, c: Command, fs: seq<seq<Token>>, live: bool) {
    && fs != [] && |fs[0]| > 0 && fs[0][0].Header? && fs[0][0].id == id
    && fs[0][1..] == (if ClientDecodesBody(c) then [Body(Result(c))] else [])
    && (!Subscribes(c) ==> |fs| == 1 && !live)
    && (forall k :: 0 < k < |fs| ==> IsRecord(id, c, fs[k]))
    && (forall k :: 0 < k < |fs| && IsDone(fs[k]) ==> k == |fs| - 1 && !live)
  }

  // Every request and every subscription is for the command that was asked
  // under its number.
  ghost predicate AsAsked(st: State, asked: seq<Command>) {
    && Numbered(st) && st.last == |asked|
    && (forall id :: id in st.unsent ==> Under(asked, id, st.unsent[id].cmd))
    && (forall i :: 0 <= i < |st.requests| ==> Under(asked, st.requests[i].id, st.requests[i].cmd))
    && (forall s :: s in st.live ==> Under(asked, s, st.live[s]))
  }

  predicate Under(asked: seq<Command>, id: nat, c: Command) {
    0 < id <= |asked| && asked[id - 1] == c
  }

  lemma BeginKeepsAsked(st: State, step: Step, asked: seq<Command>)
    requires AsAsked(st, asked) && step.Begin?
    ensures AsAsked(Next(st, step), asked + [step.cmd])
  {
    StepKeepsNumbers(st, step);
  }

  lemma OtherStepsKeepAsked(st: State, step: Step, asked: seq<Command>)
    requires AsAsked(st, asked) && Enabled(st, step) && !step.Begin?
    ensures AsAsked(Next(st, step), asked)
  {
    StepKeepsNumbers(st, step);
  }

  lemma StepKeepsAsked(st: State, step: Step, asked: seq<Command>)
    requires AsAsked(st, asked) && Enabled(st, step)
    ensures AsAsked(Next(st, step), asked + if step.Begin? then [step.cmd] else [])
  {
    if step.Begin? {
      BeginKeepsAsked(st, step, asked);
    } else {
      OtherStepsKeepAsked(st, step, asked);
      assert asked + [] == asked;
    }
  }

  ghost predicate ShapedSoFar(st: State, asked: seq<Command>, id: nat, fs: seq<seq<Token>>)
    requires 0 < id <= |asked|
  {
    if Served(st, id) then Shape(id, asked[id - 1], fs, id in st.live) else fs == []
  }

  lemma StepKeepsShape(st: State, step: Step, asked: seq<Command>, id: nat, fs: seq<seq<Token>>)
    requires AsAsked(st, asked) && Enabled(st, step) && 0 < id <= |asked| && ShapedSoFar(st, asked, id, fs)
    ensures ShapedSoFar(Next(st, step), asked, id, fs + FramesOf(st, step, id))
  {
    ServedChanges(st, step, id);
    if step.Serve? {
      assert Queued(st.requests, st.requests[0].id);
    }
  }

  lemma UnaskedGetsNoFrame(st: State, step: Step, id: nat)
    requires Numbered(st) && Enabled(st, step) && id > st.last
    ensures FramesOf(st, step, id) == []
  {}

  // The same in terms of the commands asked after the step.
  lemma ShapeStep(st: State, step: Step, asked: seq<Command>, id: nat, fs: seq<seq<Token>>)
    requires AsAsked(st, asked) && Enabled(st, step) && 0 < id <= Next(st, step).last
    requires if id <= |asked| then ShapedSoFar(st, asked, id, fs) else fs == []
    ensures var asked' := asked + if step.Begin? then [step.cmd] else [];
            id <= |asked'| && ShapedSoFar(Next(st, step), asked', id, fs + FramesOf(st, step, id))
  {
    if id <= |asked| {
      StepKeepsShape(st, step, asked, id, fs);
    } else {
      UnaskedGetsNoFrame(st, step, id);
      ServedChanges(st, step, id);
    }
  }

  lemma {:induction false} RunKeepsAsked(dec: Decoder, sts: seq<State>, steps: seq<Step>, n: nat)
    requires IsRun(dec, sts, steps) && n <= |steps|
    ensures AsAsked(sts[n], Asked(steps[..n]))
  {
    if n > 0 {
      RunKeepsAsked(dec, sts, steps, n - 1);
      assert FollowsAt(sts, steps, n - 1);
      assert steps[..n][..n - 1] == steps[..n - 1];
      StepKeepsAsked(sts[n - 1], steps[n - 1], Asked(steps[..n - 1]));
    }
  }

  // Serving a stop request ends the subscription with that number and no other,
  // and leaves what is queued for it to be sent.
  lemma StopEndsItsTarget(st: State, step: Step)
    requires Enabled(st, step) && step.Serve? && st.requests[0].cmd.Stop?
    ensures var st', target := Next(st, step), st.requests[0].target;
            && target !in st'.streams && st'.monitor != Some(target) && st'.live == st.live
            && (forall s :: s != target ==>
                  (s in st'.streams <==> s in st.streams) && (st'.monitor == Some(s) <==> st.monitor == Some(s)))
  {}

  // Main theorem: at every moment of every run, each request that the agent has
  // taken has been sent frames of the right shape, and no other has any. Calls
  // may send their requests in another order than that of their numbers.
  lemma {:induction false} RunKeepsShapes(dec: Decoder, sts: seq<State>, steps: seq<Step>, n: nat, id: nat)
    requires IsRun(dec, sts, steps) && n <= |steps| && 0 < id <= sts[n].last
    ensures id <= |Asked(steps[..n])|
    ensures ShapedSoFar(sts[n], Asked(steps[..n]), id, Frames(dec, sts, steps, n, id))
  {
    if n > 0 {
      RunKeepsAsked(dec, sts, steps, n - 1);
      assert FollowsAt(sts, steps, n - 1);
      assert steps[..n][..n - 1] == steps[..n - 1];
      if id <= sts[n - 1].last {
        RunKeepsShapes(dec, sts, steps, n - 1, id);
      } else {
        NoFramesYet(dec, sts, steps, n - 1, id);
      }
      ShapeStep(sts[n - 1], steps[n - 1], Asked(steps[..n - 1]), id, Frames(dec, sts, steps, n - 1, id));
    }
  }

  lemma {:induction false} NoFramesYet(dec: Decoder, sts: seq<State>, steps: seq<Step>, n: nat, id: nat)
    requires IsRun(dec, sts, steps) && n <= |steps| && id > sts[n].last
    ensures Frames(dec, sts, steps, n, id) == []
  {
    if n > 0 {
      RunKeepsAsked(dec, sts, steps, n - 1);
      assert FollowsAt(sts, steps, n - 1);
      UnaskedGetsNoFrame(sts[n - 1], steps[n - 1], id);
      NoFramesYet(dec, sts, steps, n - 1, id);
    }
  }

  // ---------------------------------------------------------------------
  // A run in which a record is on its way when its subscription is dropped.

  function StopSteps(): seq<Step> {
    [Begin(StreamEvents, 0), Send(1), Serve(true, ""), Read, Push(1, EventRecord), Drop(1), Read]
  }

  // The state with these entries, in which one subscription has been begun.
  function AfterBegin(reader: Reader, dropped: set<nat>, unsent: map<nat, Request>, requests: seq<Request>,
                      wire: seq<Token>, accepted: bool): State
  {
    State(1, unsent, reader, dropped, requests, wire, None,
          if accepted then {1} else {}, if accepted then map[1 := StreamEvents] else map[])
  }

  function StopStates(dec: Decoder): seq<State> {
    var r := Request(1, StreamEvents, 0);
    var waiting := Reader(dec, map[1 := Sub(StreamEvents, false)], 0);
    var subscribed := Reader(dec, map[1 := Sub(StreamEvents, true)], 1);
    [Initial(dec),
     AfterBegin(waiting, {}, map[1 := r], [], [], false),
     AfterBegin(waiting, {}, map[], [r], [], false),
     AfterBegin(waiting, {}, map[], [], [Header(1, "")], true),
     AfterBegin(subscribed, {}, map[], [], [], true),
     AfterBegin(subscribed, {}, map[], [], [Header(1, ""), Body(EventRecord)], true),
     AfterBegin(Reader(dec, map[], 1), {1}, map[], [], [Header(1, ""), Body(EventRecord)], true),
     AfterBegin(Reader(dec, map[], 1), {1}, map[], [], [Body(EventRecord)], true)]
  }

  lemma StopRunAsks(dec: Decoder)
    ensures FollowsAt(StopStates(dec), StopSteps(), 0) && FollowsAt(StopStates(dec), StopSteps(), 1)
  {
    var sts := StopStates(dec);
    assert Next(sts[0], Begin(StreamEvents, 0)).reader == sts[1].reader;
    assert Next(sts[1], Send(1)).unsent == map[];
  }

  lemma StopRunSubscribes(dec: Decoder)
    ensures FollowsAt(StopStates(dec), StopSteps(), 2) && FollowsAt(StopStates(dec), StopSteps(), 3)
  {
    var sts := StopStates(dec);
    assert Next(sts[2], Serve(true, "")).wire == [Header(1, "")];
    assert Next(sts[3], Read).reader == sts[4].reader;
  }

  lemma StopRunStops(dec: Decoder)
    ensures FollowsAt(StopStates(dec), StopSteps(), 4) && FollowsAt(StopStates(dec), StopSteps(), 5)
    ensures FollowsAt(StopStates(dec), StopSteps(), 6)
  {
    var sts := StopStates(dec);
    assert Next(sts[4], Push(1, EventRecord)).wire == sts[5].wire;
    assert Next(sts[5], Drop(1)).reader == sts[6].reader;
    assert sts[6].wire[1..] == [Body(EventRecord)];
  }

  // Stop drops the subscription before it tells the agent, so a record sent
  // meanwhile is enough: the client ends up at a record where a header is due,
  // which a strict decoder cannot read and a tolerant one skips.
  lemma StoppingWithARecordOnItsWay(dec: Decoder) returns (sts: seq<State>)
    ensures IsRun(dec, sts, StopSteps()) && sts[7].wire == [Body(EventRecord)]
    ensures Enabled(sts[7], Read) <==> dec.Tolerant?
    ensures dec.Tolerant? ==> Next(sts[7], Read) == sts[7].(wire := [])
  {
    sts := StopStates(dec);
    StopRunAsks(dec);
    StopRunSubscribes(dec);
    StopRunStops(dec);
    assert [Body(EventRecord)][1..] == [];
  }
}
