// The agent's book-keeping of its clients' subscriptions: command/agent/ipc.go
// and the handler list of command/agent/agent.go. Each method is one request,
// one event, or one turn of a stream's goroutine, from start to end.
module Sessions {
  import opened EventFilters
  import opened EventHandler
  import opened Listings
  import opened Streams
  import opened StreamRuns
  import LogWriter

  class Agent {
    var eventHandlers: set<Stream<SerfEvent>>
    var eventHandlerList: seq<Stream<SerfEvent>>

    ghost predicate Valid()
      reads this
    {
      Enumerates(eventHandlerList, eventHandlers)
    }

    constructor ()
      ensures Valid() && eventHandlers == {}
    {
      eventHandlers, eventHandlerList := {}, [];
    }

    method RebuildList()
      modifies this`eventHandlerList
      ensures Valid()
    {
      eventHandlerList := [];
      var todo := eventHandlers;
      while todo != {}
        invariant todo <= eventHandlers && Enumerates(eventHandlerList, eventHandlers - todo)
        decreases todo
      {
        var eh :| eh in todo;
        todo := todo - {eh};
        eventHandlerList := eventHandlerList + [eh];
      }
    }

    method RegisterEventHandler(eh: Stream<SerfEvent>)
      modifies this
      ensures Valid() && eventHandlers == old(eventHandlers) + {eh}
    {
      eventHandlers := eventHandlers + {eh};
      RebuildList();
    }

    method DeregisterEventHandler(eh: Stream<SerfEvent>)
      modifies this
      ensures Valid() && eventHandlers == old(eventHandlers) - {eh}
    {
      eventHandlers := eventHandlers - {eh};
      RebuildList();
    }

    // One event of eventLoop: each registered handler gets it exactly once.
    method FanOut(e: SerfEvent)
      requires Valid() && forall eh :: eh in eventHandlers ==> eh.stops == 0
      modifies eventHandlers`queue, eventHandlers`offered, eventHandlers`lost
      ensures forall eh :: eh in eventHandlers ==> eh.Value() == Offered(old(eh.Value()), e)
    {
      var handlers := eventHandlerList;
      for i := 0 to |handlers|
        invariant forall j :: 0 <= j < |handlers| ==>
                    handlers[j].Value() == if j < i then Offered(old(handlers[j].Value()), e)
                                           else old(handlers[j].Value())
      {
        assert handlers[i] in eventHandlers;
        handlers[i].Handle(e);
      }
    }
  }

  class AgentIPC {
    const agent: Agent
    const logWriter: LogWriter.LogWriter
    var clients: set<IPCClient>
    ghost var made: seq<Stream<SerfEvent>>   // every event stream ever made
    ghost var monitors: seq<Stream<string>>  // every log stream ever made
    // What has been done so far to the event streams and to the log streams.
    ghost var sts: seq<State<SerfEvent>>
    ghost var steps: seq<Step<SerfEvent>>
    ghost var logSts: seq<State<string>>
    ghost var logSteps: seq<Step<string>>

    // Of connected clients, exactly their own streams are registered.
    ghost predicate Valid()
      reads this, agent, logWriter, logWriter.logs, logWriter.handlers, clients, monitors, made
    {
      EventsValid() && LogsValid()
    }

    // The event streams are in the state that the steps so far lead to.
    ghost predicate EventsValid()
      reads this`clients, this`made, this`sts, this`steps, agent, clients`eventStreams, made
    {
      && agent.Valid()
      && Owns(clients, agent.eventHandlers)
      && IsRun(sts, steps) && Mirrors(made, sts[|steps|], agent.eventHandlers)
      && NothingReplayed(steps)
    }

    // So are the log streams, which are handed every line that is written.
    ghost predicate LogsValid()
      reads this`clients, this`monitors, this`logSts, this`logSteps, clients`logStreamer, monitors
      reads logWriter, logWriter.logs, logWriter.handlers
    {
      && logWriter.Valid()
      && OwnsLogs(clients, logWriter.handlers)
      && IsRun(logSts, logSteps) && Mirrors(monitors, logSts[|logSteps|], logWriter.handlers)
      && ReplaysHistory(logSteps, logWriter.history, logWriter.logs.Length)
    }

    constructor (buf: nat)
      requires buf > 0
      ensures Valid() && clients == {} && fresh(agent) && fresh(logWriter)
      ensures monitors == [] && made == [] && steps == [] && logSteps == []
    {
      agent := new Agent();
      logWriter := new LogWriter.LogWriter(buf);
      clients, monitors, made, sts, steps := {}, [], [], [State([], {})], [];
      logSts, logSteps := [State([], {})], [];
    }

    method Connect() returns (c: IPCClient)
      requires Valid()
      modifies this`clients
      ensures Valid() && fresh(c) && clients == old(clients) + {c}
    {
      c := new IPCClient();
      clients := clients + {c};
    }

    ghost method Advance(step: Step<SerfEvent>)
      requires IsRun(sts, steps) && StreamRuns.Enabled(sts[|steps|], step)
      requires NothingReplayed(steps) && (step.Open? ==> step.first == [])
      modifies this`sts, this`steps
      ensures IsRun(sts, steps) && NothingReplayed(steps) && steps == old(steps) + [step]
      ensures sts[|steps|] == StreamRuns.Next(old(sts)[|old(steps)|], step)
    {
      RunSnoc(sts, steps, step);
      StepReplaysNothing(steps, step);
      sts, steps := sts + [StreamRuns.Next(sts[|steps|], step)], steps + [step];
    }

    ghost method AdvanceLogs(step: Step<string>)
      requires IsRun(logSts, logSteps) && StreamRuns.Enabled(logSts[|logSteps|], step)
      modifies this`logSts, this`logSteps
      ensures IsRun(logSts, logSteps) && logSteps == old(logSteps) + [step]
      ensures logSts[|logSteps|] == StreamRuns.Next(old(logSts)[|old(logSteps)|], step)
    {
      RunSnoc(logSts, logSteps, step);
      logSts, logSteps := logSts + [StreamRuns.Next(logSts[|logSteps|], step)], logSteps + [step];
    }

    // handleStream, with the filters of the request in their textual form.
    method HandleStream(c: IPCClient, seqNo: nat, reqType: string) returns (ok: bool)
      requires Valid() && c in clients
      modifies this`made, this`sts, this`steps, agent, c`eventStreams
      ensures Valid()
      ensures ok == ((forall f :: f in Parsed(reqType) ==> f.Valid()) && seqNo !in old(c.eventStreams))
      ensures if ok then seqNo in c.eventStreams && fresh(c.eventStreams[seqNo])
                         && c.eventStreams == old(c.eventStreams)[seqNo := c.eventStreams[seqNo]]
                         && c.eventStreams[seqNo].Value() == NewFeed(AnyOf(Parsed(reqType)))
                         && steps == old(steps) + [Open(AnyOf(Parsed(reqType)), [])]
              else c.eventStreams == old(c.eventStreams) && agent.eventHandlers == old(agent.eventHandlers)
                   && steps == old(steps)
    {
      var filters := ParseEventFilter(reqType);
      ok := AllValid(filters);
      ok := ok && seqNo !in c.eventStreams;
      if ok {
        OpenStream(c, seqNo, filters);
      }
    }

    method OpenStream(c: IPCClient, seqNo: nat, filters: seq<EventFilter>)
      requires Valid() && c in clients && seqNo !in c.eventStreams
      modifies this`made, this`sts, this`steps, agent, c`eventStreams
      ensures Valid() && seqNo in c.eventStreams && fresh(c.eventStreams[seqNo])
      ensures c.eventStreams == old(c.eventStreams)[seqNo := c.eventStreams[seqNo]]
      ensures c.eventStreams[seqNo].Value() == NewFeed(AnyOf(filters))
      ensures steps == old(steps) + [Open(AnyOf(filters), [])]
    {
      var es := new Stream(c, seqNo, AnyOf(filters), |made|);
      AddStream(c, es);
    }

    method AddStream(c: IPCClient, es: Stream<SerfEvent>)
      requires EventsValid() && c in clients && es.client == c && es.id !in c.eventStreams
      requires es.number == |made| && es.Value() == NewFeed(es.accepts)
      modifies this`made, this`sts, this`steps, agent, c`eventStreams
      ensures EventsValid() && c.eventStreams == old(c.eventStreams)[es.id := es]
      ensures steps == old(steps) + [Open(es.accepts, [])]
    {
      OpeningMirrors(made, sts[|steps|], agent.eventHandlers, es, []);
      OpeningOwns(clients, agent.eventHandlers, es);
      Enter(c, es, agent.eventHandlers);
      agent.RegisterEventHandler(es);
      made := made + [es];
      Advance(Open(es.accepts, []));
    }

    method Enter(c: IPCClient, es: Stream<SerfEvent>, ghost handlers: set<Stream<SerfEvent>>)
      requires Owns(clients, handlers) && c in clients && es.client == c && es.id !in c.eventStreams
      modifies c`eventStreams
      ensures Owns(clients, handlers + {es}) && c.eventStreams == old(c.eventStreams)[es.id := es]
    {
      c.eventStreams := c.eventStreams[es.id := es];
    }

    method Forget(c: IPCClient, target: nat, ghost handlers: set<Stream<SerfEvent>>)
      requires Owns(clients, handlers) && c in clients && target in c.eventStreams
      modifies c`eventStreams
      ensures Owns(clients, handlers - {old(c.eventStreams)[target]})
      ensures c.eventStreams == old(c.eventStreams) - {target}
    {
      c.eventStreams := c.eventStreams - {target};
    }

    // One event of the agent's loop reaches the open streams, and no queue that
    // was closed.
    method Dispatch(e: SerfEvent)
      requires EventsValid()
      modifies this`sts, this`steps
      modifies agent.eventHandlers`queue, agent.eventHandlers`offered, agent.eventHandlers`lost
      ensures EventsValid() && steps == old(steps) + [Happens(e)]
      ensures forall eh :: eh in agent.eventHandlers ==> eh.Value() == Offered(old(eh.Value()), e)
    {
      forall eh | eh in agent.eventHandlers ensures eh.Valid() && eh.stops == 0 {
        MirrorsSound(eh);
      }
      agent.FanOut(e);
      Advance(Happens(e));
    }

    // A stream's goroutine takes the next value from its queue.
    method Forward(es: Stream<SerfEvent>, sendFails: bool)
      requires EventsValid() && es in made && !es.failed && es.queue != []
      modifies this`sts, this`steps, es`queue, es`sent, es`failed
      ensures EventsValid() && steps == old(steps) + [Step.Forward(es.number, sendFails)]
    {
      MirrorsSound(es);
      es.StreamNext(sendFails);
      Advance(Step.Forward(es.number, sendFails));
    }

    lemma MirrorsSound(es: Stream<SerfEvent>)
      requires EventsValid() && (es in made || es in agent.eventHandlers)
      ensures es in made && es.Valid() && es.stops == if es in agent.eventHandlers then 0 else 1
    {
      RunIsSound(sts, steps, |steps|, es.number);
    }

    // What a stream has sent is, in order, among the matching events dispatched
    // between its registration and its stop.
    lemma SentWhileRegistered(es: Stream<SerfEvent>) returns (m: nat, end: nat)
      requires EventsValid() && es in made
      ensures Spans(sts, steps, |steps|, es.number, m, end) && steps[m].accepts == es.accepts
      ensures Subsequence(es.sent, Matching(es.accepts, Events(steps[m + 1..end])))
      ensures es in agent.eventHandlers <==> end == |steps|
    {
      m, end := EveryStreamHasASpan(sts, steps, |steps|, es.number);
      StreamsHearTheirSpan(sts, steps, |steps|, es.number, m, end);
      StreamsSendTheirSpan(sts, steps, |steps|, es.number, m, end);
      assert NotReplayedAt(steps, m);
      assert SpanOf(steps, m, end) == Events(steps[m + 1..end]);
    }

    twostate lemma EventsUntouched()
      requires old(EventsValid())
      requires unchanged(this`clients, this`made, this`sts, this`steps, agent)
      requires unchanged(old(clients)`eventStreams, old(made))
      ensures EventsValid()
    {}

    // handleMonitor; validLevel says whether the log level is known, and `check`
    // is the level filter. The stream is sent the replay at once.
    method HandleMonitor(c: IPCClient, seqNo: nat, validLevel: bool, check: string -> bool) returns (ok: bool)
      requires Valid() && c in clients
      modifies this`monitors, this`logSts, this`logSteps, logWriter`handlers, c`logStreamer
      ensures Valid() && ok == (validLevel && old(c.logStreamer) == null)
      ensures if ok then c.logStreamer != null && fresh(c.logStreamer) && c.logStreamer.id == seqNo
              else c.logStreamer == old(c.logStreamer) && logWriter.handlers == old(logWriter.handlers)
      ensures ok ==> c.logStreamer.accepts == check
      ensures ok ==> c.logStreamer.Value() == OfferedAll(NewFeed(check), Replay())
      ensures if ok then logSteps == old(logSteps) + [Open(check, Replay())] else logSteps == old(logSteps)
    {
      if !validLevel || c.logStreamer != null {
        return false;
      }
      OpenMonitor(c, seqNo, check);
      EventsUntouched();
      ok := true;
    }

    ghost function Replay(): seq<string>
      reads logWriter`history
      requires logWriter.logs.Length > 0
    {
      LogWriter.ReplayOf(logWriter.history, logWriter.logs.Length)
    }

    method OpenMonitor(c: IPCClient, seqNo: nat, check: string -> bool)
      requires LogsValid() && c in clients && c.logStreamer == null
      modifies this`monitors, this`logSts, this`logSteps, logWriter`handlers, c`logStreamer
      ensures LogsValid() && c.logStreamer != null && fresh(c.logStreamer) && c.logStreamer.id == seqNo
      ensures c.logStreamer.accepts == check
      ensures c.logStreamer.Value() == OfferedAll(NewFeed(check), Replay())
      ensures logSteps == old(logSteps) + [Open(check, Replay())]
    {
      var ls := new Stream(c, seqNo, check, |monitors|);
      AddMonitor(c, ls);
    }

    method AddMonitor(c: IPCClient, ls: Stream<string>)
      requires LogsValid() && c in clients && c.logStreamer == null && ls.number == |monitors|
      requires ls.client == c && ls.Value() == NewFeed(ls.accepts)
      modifies this`monitors, this`logSts, this`logSteps, logWriter`handlers, c`logStreamer
      modifies ls`queue, ls`offered, ls`lost
      ensures LogsValid() && c.logStreamer == ls
      ensures ls.Value() == OfferedAll(NewFeed(ls.accepts), Replay())
      ensures logSteps == old(logSteps) + [Open(ls.accepts, Replay())]
    {
      ghost var first := Replay();
      EnterMonitor(c, ls, logWriter.handlers);
      RegisterMonitor(ls, first);
    }

    method EnterMonitor(c: IPCClient, ls: Stream<string>, ghost handlers: set<Stream<string>>)
      requires OwnsLogs(clients, handlers) && c in clients && c.logStreamer == null && ls.client == c
      modifies c`logStreamer
      ensures OwnsLogs(clients, handlers + {ls}) && c.logStreamer == ls
    {
      c.logStreamer := ls;
    }

    method RegisterMonitor(ls: Stream<string>, ghost first: seq<string>)
      requires logWriter.Valid() && IsRun(logSts, logSteps) && first == Replay()
      requires ReplaysHistory(logSteps, logWriter.history, logWriter.logs.Length)
      requires Mirrors(monitors, logSts[|logSteps|], logWriter.handlers)
      requires ls.number == |monitors| && ls.Value() == NewFeed(ls.accepts)
      modifies this`monitors, this`logSts, this`logSteps, logWriter`handlers, ls`queue, ls`offered, ls`lost
      ensures logWriter.Valid() && IsRun(logSts, logSteps)
      ensures ReplaysHistory(logSteps, logWriter.history, logWriter.logs.Length)
      ensures Mirrors(monitors, logSts[|logSteps|], logWriter.handlers)
      ensures logWriter.handlers == old(logWriter.handlers) + {ls} && monitors == old(monitors) + [ls]
      ensures ls.Value() == OfferedAll(NewFeed(ls.accepts), first)
      ensures logSteps == old(logSteps) + [Open(ls.accepts, first)]
    {
      ghost var st := logSts[|logSteps|];
      OpeningReplays(logSteps, logWriter.history, logWriter.logs.Length, ls.accepts);
      AdvanceLogs(Open(ls.accepts, first));
      EnrolMonitor(ls, first, st);
    }

    method EnrolMonitor(ls: Stream<string>, ghost first: seq<string>, ghost st: State<string>)
      requires logWriter.Valid() && first == Replay() && Mirrors(monitors, st, logWriter.handlers)
      requires ls.number == |monitors| && ls.Value() == NewFeed(ls.accepts)
      modifies this`monitors, logWriter`handlers, ls`queue, ls`offered, ls`lost
      ensures logWriter.Valid()
      ensures Mirrors(monitors, StreamRuns.Next(st, Open(ls.accepts, first)), logWriter.handlers)
      ensures logWriter.handlers == old(logWriter.handlers) + {ls} && monitors == old(monitors) + [ls]
      ensures ls.Value() == OfferedAll(NewFeed(ls.accepts), first)
    {
      ghost var handlers := logWriter.handlers;
      OpeningIsNew(monitors, st, handlers, ls);
      logWriter.RegisterHandler(ls);
      OpeningMirrors(monitors, st, handlers, ls, first);
      monitors := monitors + [ls];
    }

    // A line is logged: every open log stream is handed it.
    method WriteLog(p: string)
      requires LogsValid() && p != ""
      modifies this`logSts, this`logSteps, logWriter`index, logWriter`history, logWriter.logs
      modifies logWriter.handlers`queue, logWriter.handlers`offered, logWriter.handlers`lost
      ensures LogsValid() && logSteps == old(logSteps) + [Happens(LogWriter.Line(p))]
    {
      WritingReplays(logSteps, logWriter.history, logWriter.logs.Length, LogWriter.Line(p));
      var n := logWriter.Write(p);
      AdvanceLogs(Happens(LogWriter.Line(p)));
    }

    method ForwardLine(ls: Stream<string>, sendFails: bool)
      requires LogsValid() && ls in monitors && !ls.failed && ls.queue != []
      modifies this`logSts, this`logSteps, ls`queue, ls`sent, ls`failed
      ensures LogsValid() && logSteps == old(logSteps) + [Step.Forward(ls.number, sendFails)]
    {
      MonitorsSound(ls);
      OtherStepReplays(logSteps, logWriter.history, logWriter.logs.Length, Step.Forward(ls.number, sendFails));
      ls.StreamNext(sendFails);
      AdvanceLogs(Step.Forward(ls.number, sendFails));
    }

    lemma MonitorsSound(ls: Stream<string>)
      requires LogsValid() && (ls in monitors || ls in logWriter.handlers)
      ensures ls in monitors && ls.Valid() && ls.stops == if ls in logWriter.handlers then 0 else 1
    {
      RunIsSound(logSts, logSteps, |logSteps|, ls.number);
    }

    // What a monitor has sent is, in order, among the lines that its level filter
    // accepts of those replayed to it and those written until its stop.
    lemma SentWhileMonitoring(ls: Stream<string>) returns (m: nat, end: nat)
      requires LogsValid() && ls in monitors
      ensures Spans(logSts, logSteps, |logSteps|, ls.number, m, end) && logSteps[m].accepts == ls.accepts
      ensures var replayed := LogWriter.ReplayOf(Events(logSteps[..m]), logWriter.logs.Length);
              Subsequence(ls.sent, Matching(ls.accepts, replayed + Events(logSteps[m + 1..end])))
      ensures ls in logWriter.handlers <==> end == |logSteps|
    {
      m, end := EveryStreamHasASpan(logSts, logSteps, |logSteps|, ls.number);
      StreamsHearTheirSpan(logSts, logSteps, |logSteps|, ls.number, m, end);
      assert OpenedWithReplay(logSteps, m, logWriter.logs.Length);
      StreamsSendTheirSpan(logSts, logSteps, |logSteps|, ls.number, m, end);
    }

    method StopMonitor(c: IPCClient)
      requires LogsValid() && c in clients && c.logStreamer != null
      modifies this`logSts, this`logSteps, logWriter`handlers, c`logStreamer, c.logStreamer`stops
      ensures LogsValid() && c.logStreamer == null
      ensures logWriter.handlers == old(logWriter.handlers) - {old(c.logStreamer)}
      ensures logSteps == old(logSteps) + [Close(old(c.logStreamer).number)]
    {
      var ls := c.logStreamer;
      MonitorsSound(ls);
      ghost var handlers := logWriter.handlers;
      OtherStepReplays(logSteps, logWriter.history, logWriter.logs.Length, Close(ls.number));
      logWriter.DeregisterHandler(ls);
      CloseMonitor(ls, handlers);
      ForgetMonitor(c, handlers);
    }

    method CloseMonitor(ls: Stream<string>, ghost handlers: set<Stream<string>>)
      requires IsRun(logSts, logSteps) && Mirrors(monitors, logSts[|logSteps|], handlers)
      requires ls in handlers && ls.Valid() && ls.stops == 0
      modifies this`logSts, this`logSteps, ls`stops
      ensures IsRun(logSts, logSteps) && Mirrors(monitors, logSts[|logSteps|], handlers - {ls})
      ensures logSteps == old(logSteps) + [Close(ls.number)]
    {
      ls.Stop();
      AdvanceLogs(Close(ls.number));
    }

    method ForgetMonitor(c: IPCClient, ghost handlers: set<Stream<string>>)
      requires OwnsLogs(clients, handlers) && c in clients && c.logStreamer != null
      modifies c`logStreamer
      ensures OwnsLogs(clients, handlers - {old(c.logStreamer)}) && c.logStreamer == null
    {
      c.logStreamer := null;
    }

    method StopStream(c: IPCClient, target: nat)
      requires EventsValid() && c in clients && target in c.eventStreams
      modifies this`sts, this`steps, agent, c`eventStreams, {c.eventStreams[target]}`stops
      ensures EventsValid() && c.eventStreams == old(c.eventStreams) - {target}
      ensures agent.eventHandlers == old(agent.eventHandlers) - {old(c.eventStreams)[target]}
      ensures steps == old(steps) + [Close(old(c.eventStreams)[target].number)]
    {
      var es := c.eventStreams[target];
      MirrorsSound(es);
      ghost var handlers := agent.eventHandlers;
      agent.DeregisterEventHandler(es);
      CloseStream(es, handlers);
      Forget(c, target, handlers);
    }

    method StopOpenStream(c: IPCClient, target: nat)
      requires Valid() && c in clients && target in c.eventStreams
      modifies this`sts, this`steps, agent, c`eventStreams, made`stops
      ensures Valid() && c.eventStreams == old(c.eventStreams) - {target}
      ensures steps == old(steps) + [Close(old(c.eventStreams)[target].number)]
    {
      MirrorsSound(c.eventStreams[target]);
      StopStream(c, target);
    }

    method CloseStream(es: Stream<SerfEvent>, ghost handlers: set<Stream<SerfEvent>>)
      requires IsRun(sts, steps) && NothingReplayed(steps) && Mirrors(made, sts[|steps|], handlers)
      requires es in handlers && es.Valid() && es.stops == 0
      modifies this`sts, this`steps, es`stops
      ensures IsRun(sts, steps) && NothingReplayed(steps) && Mirrors(made, sts[|steps|], handlers - {es})
      ensures steps == old(steps) + [Close(es.number)]
    {
      es.Stop();
      Advance(Close(es.number));
    }

    method HandleStop(c: IPCClient, target: nat)
      requires Valid() && c in clients
      modifies this`logSts, this`logSteps, this`sts, this`steps, agent, logWriter`handlers, c
      modifies monitors`stops, made`stops
      ensures Valid() && target !in c.eventStreams && (c.logStreamer != null ==> c.logStreamer.id != target)
      ensures c.eventStreams == old(c.eventStreams) - {target}
      ensures c.logStreamer == if old(c.logStreamer) != null && old(c.logStreamer).id == target then null
                               else old(c.logStreamer)
      ensures steps == old(steps) + if target in old(c.eventStreams)
                                    then [Close(old(c.eventStreams)[target].number)] else []
    {
      StopMonitorAt(c, target);
      StopStreamAt(c, target);
    }

    method StopStreamAt(c: IPCClient, target: nat)
      requires Valid() && c in clients
      modifies this`sts, this`steps, agent, c`eventStreams, made`stops
      ensures Valid() && c.eventStreams == old(c.eventStreams) - {target}
      ensures steps == old(steps) + if target in old(c.eventStreams)
                                    then [Close(old(c.eventStreams)[target].number)] else []
    {
      if target in c.eventStreams {
        StopOpenStream(c, target);
      }
    }

    method StopMonitorAt(c: IPCClient, target: nat)
      requires Valid() && c in clients
      modifies this`logSts, this`logSteps, logWriter`handlers, c`logStreamer, monitors`stops
      ensures Valid()
      ensures c.logStreamer == if old(c.logStreamer) != null && old(c.logStreamer).id == target then null
                               else old(c.logStreamer)
    {
      if c.logStreamer != null && c.logStreamer.id == target {
        StopOpenMonitor(c);
      }
    }

    method StopOpenMonitor(c: IPCClient)
      requires Valid() && c in clients && c.logStreamer != null
      modifies this`logSts, this`logSteps, logWriter`handlers, c`logStreamer, monitors`stops
      ensures Valid() && c.logStreamer == null
    {
      MonitorsSound(c.logStreamer);
      StopMonitor(c);
    }

    // deregisterClient, when the connection has ended.
    method DeregisterClient(c: IPCClient)
      requires Valid() && c in clients
      modifies this`clients, this`logSts, this`logSteps, this`sts, this`steps, agent, logWriter`handlers, c
      modifies monitors`stops, made`stops
      ensures Valid() && clients == old(clients) - {c}
      ensures forall es :: es in agent.eventHandlers ==> es.client != c
      ensures forall ls :: ls in logWriter.handlers ==> ls.client != c
      ensures forall es :: es in made && es.client == c ==> es.stops == 1
      ensures forall ls :: ls in monitors && ls.client == c ==> ls.stops == 1
      ensures OnlyCloses(old(steps), steps)
    {
      if c.logStreamer != null {
        StopOpenMonitor(c);
      }
      StopStreams(c);
      RemoveClient(c);
    }

    method StopStreams(c: IPCClient)
      requires Valid() && c in clients
      modifies this`sts, this`steps, agent, c`eventStreams, made`stops
      ensures Valid() && c.eventStreams == map[]
      ensures OnlyCloses(old(steps), steps)
    {
      var todo := c.eventStreams.Keys;
      while todo != {}
        invariant Valid() && c.eventStreams.Keys == todo
        invariant OnlyCloses(old(steps), steps)
        decreases todo
      {
        var k :| k in todo;
        todo := todo - {k};
        ClosingOne(old(steps), steps, c.eventStreams[k].number);
        StopOpenStream(c, k);
      }
    }

    method RemoveClient(c: IPCClient)
      requires Valid() && c in clients && c.logStreamer == null && c.eventStreams == map[]
      modifies this`clients
      ensures Valid() && clients == old(clients) - {c}
      ensures forall es :: es in agent.eventHandlers ==> es.client != c
      ensures forall ls :: ls in logWriter.handlers ==> ls.client != c
      ensures forall es :: es in made && es.client == c ==> es.stops == 1
      ensures forall ls :: ls in monitors && ls.client == c ==> ls.stops == 1
    {
      clients := clients - {c};
      forall es | es in made && es.client == c ensures es.stops == 1 {
        MirrorsSound(es);
      }
      forall ls | ls in monitors && ls.client == c ensures ls.stops == 1 {
        MonitorsSound(ls);
      }
    }
  }

  method AllValid(filters: seq<EventFilter>) returns (ok: bool)
    ensures ok <==> forall f :: f in filters ==> f.Valid()
  {
    for i := 0 to |filters|
      invariant forall f :: f in filters[..i] ==> f.Valid()
    {
      if !filters[i].Valid() {
        return false;
      }
    }
    assert filters[..|filters|] == filters;
    ok := true;
  }

  ghost predicate Owns(clients: set<IPCClient>, handlers: set<Stream<SerfEvent>>)
    reads clients`eventStreams
  {
    && (forall c, s :: c in clients && s in c.eventStreams ==>
          var es := c.eventStreams[s]; es in handlers && es.client == c && es.id == s)
    && (forall es :: es in handlers ==>
          es.client in clients && es.id in es.client.eventStreams && es.client.eventStreams[es.id] == es)
  }

  ghost predicate OwnsLogs(clients: set<IPCClient>, handlers: set<Stream<string>>)
    reads clients`logStreamer
  {
    && (forall c :: c in clients && c.logStreamer != null ==>
          c.logStreamer in handlers && c.logStreamer.client == c)
    && (forall ls :: ls in handlers ==> ls.client in clients && ls.client.logStreamer == ls)
  }

  // The streams made so far are in state st, and `handlers` are those open.
  ghost predicate Mirrors<T>(made: seq<Stream<T>>, st: State<T>, handlers: set<Stream<T>>)
    reads made
  {
    && |made| == |st.feeds|
    && (forall i :: 0 <= i < |made| ==>
          made[i].number == i && made[i].Value() == st.feeds[i] && (made[i] in handlers <==> i in st.open))
    && (forall es :: es in handlers ==> es.number < |made| && made[es.number] == es)
  }

  // Event streams start with an empty queue.
  ghost predicate NothingReplayed(steps: seq<Step<SerfEvent>>) {
    forall m :: 0 <= m < |steps| ==> NotReplayedAt(steps, m)
  }

  ghost predicate NotReplayedAt(steps: seq<Step<SerfEvent>>, m: nat)
    requires m < |steps|
  {
    steps[m].Open? ==> steps[m].first == []
  }

  lemma StepReplaysNothing(steps: seq<Step<SerfEvent>>, step: Step<SerfEvent>)
    requires NothingReplayed(steps) && (step.Open? ==> step.first == [])
    ensures NothingReplayed(steps + [step])
  {
    forall m | 0 <= m < |steps| + 1 ensures NotReplayedAt(steps + [step], m) {
      assert m < |steps| ==> NotReplayedAt(steps, m);
    }
  }

  // The lines written so far are those of the steps, and each stream was opened
  // with the replay due at that time.
  ghost predicate ReplaysHistory(steps: seq<Step<string>>, history: seq<string>, n: nat) {
    && n > 0 && history == Events(steps)
    && forall m :: 0 <= m < |steps| ==> OpenedWithReplay(steps, m, n)
  }

  ghost predicate OpenedWithReplay(steps: seq<Step<string>>, m: nat, n: nat)
    requires n > 0 && m < |steps|
  {
    steps[m].Open? ==> steps[m].first == LogWriter.ReplayOf(Events(steps[..m]), n)
  }

  lemma StepReplays(steps: seq<Step<string>>, history: seq<string>, n: nat, step: Step<string>)
    requires ReplaysHistory(steps, history, n)
    requires step.Open? ==> step.first == LogWriter.ReplayOf(history, n)
    ensures ReplaysHistory(steps + [step], history + (if step.Happens? then [step.e] else []), n)
  {
    var steps' := steps + [step];
    assert steps'[..|steps|] == steps;
    forall m | 0 <= m < |steps'| ensures OpenedWithReplay(steps', m, n) {
      assert m < |steps| ==> OpenedWithReplay(steps, m, n);
      assert steps'[..m] == steps[..m];
    }
  }

  lemma OpeningReplays(steps: seq<Step<string>>, history: seq<string>, n: nat, check: string -> bool)
    requires ReplaysHistory(steps, history, n)
    ensures ReplaysHistory(steps + [Open(check, LogWriter.ReplayOf(history, n))], history, n)
  {
    StepReplays(steps, history, n, Open(check, LogWriter.ReplayOf(history, n)));
    assert history + [] == history;
  }

  lemma WritingReplays(steps: seq<Step<string>>, history: seq<string>, n: nat, line: string)
    requires ReplaysHistory(steps, history, n)
    ensures ReplaysHistory(steps + [Happens(line)], history + [line], n)
  {
    StepReplays(steps, history, n, Happens(line));
  }

  lemma OtherStepReplays(steps: seq<Step<string>>, history: seq<string>, n: nat, step: Step<string>)
    requires ReplaysHistory(steps, history, n) && (step.Close? || step.Forward?)
    ensures ReplaysHistory(steps + [step], history, n)
  {
    StepReplays(steps, history, n, step);
    assert history + [] == history;
  }

  // Nothing but closing streams was done since.
  ghost predicate OnlyCloses<T>(was: seq<Step<T>>, steps: seq<Step<T>>) {
    was <= steps && forall j :: |was| <= j < |steps| ==> steps[j].Close?
  }

  lemma ClosingOne<T>(was: seq<Step<T>>, steps: seq<Step<T>>, i: nat)
    requires OnlyCloses(was, steps)
    ensures OnlyCloses(was, steps + [Close(i)])
  {}

  lemma OpeningOwns(clients: set<IPCClient>, handlers: set<Stream<SerfEvent>>, es: Stream<SerfEvent>)
    requires Owns(clients, handlers) && es.id !in es.client.eventStreams
    ensures es !in handlers
  {}

  lemma OpeningIsNew<T>(made: seq<Stream<T>>, st: State<T>, handlers: set<Stream<T>>, es: Stream<T>)
    requires Mirrors(made, st, handlers) && es.number == |made|
    ensures es !in made && es !in handlers
  {}

  lemma OpeningMirrors<T>(made: seq<Stream<T>>, st: State<T>, handlers: set<Stream<T>>, es: Stream<T>, first: seq<T>)
    requires Mirrors(made, st, handlers) && es.number == |made|
    requires es.Value() == OfferedAll(NewFeed(es.accepts), first)
    ensures Mirrors(made + [es], StreamRuns.Next(st, Open(es.accepts, first)), handlers + {es})
  {}
}
