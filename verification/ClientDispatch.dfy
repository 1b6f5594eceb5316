// The client's dispatch map and how it is torn down: client/rpc_client.go.
// The steps of concurrent calls, of the reader and of Close may interleave in
// any order.
module ClientDispatch {
  import opened Wrappers

  // ---------------------------------------------------------------------
  // The steps, and what holds in every run of them.

  // A subscription: its handler's flags, the values ever put into the channel of
  // capacity one that its call waits on, how often the subscriber's channels
  // were closed, and whether anything was sent to them after that.
  datatype Sub = Sub(init: bool, closed: bool, outcomes: nat, chanCloses: nat, late: bool)

  function Settled(s: Sub): Sub {
    s.(init := true, outcomes := s.outcomes + 1)
  }

  function CleanedUp(s: Sub): Sub {
    if s.closed then s
    else (if s.init then s else Settled(s)).(closed := true, chanCloses := s.chanCloses + 1)
  }

  // A frame for the subscription: its response or, later, a record, which may
  // fail to decode or say that it is the last.
  function Received(s: Sub, decodes: bool, done: bool): Sub {
    if !s.init then Settled(s)
    else if !decodes || done then s
    else s.(late := s.late || s.chanCloses > 0)
  }

  predicate Ends(s: Sub, decodes: bool, done: bool) {
    s.init && (!decodes || done)
  }

  // Where a call stands between getSeq and its return.
  datatype Phase = Registered | Waiting

  // `calls` holds the calls that have not returned, `subs` every subscription
  // ever made.
  datatype State = State(last: nat, dispatch: set<nat>, subs: map<nat, Sub>, calls: map<nat, Phase>,
                         shutdown: bool, tornDown: bool)

  datatype Step =
    | BeginSubscription     // getSeq and handleSeq of Monitor, Stream and Query
    | BeginCall             // the same in genericRPC
    | Sent(id: nat)         // send went through: it refuses once the client is shut down
    | GiveUp(id: nat)       // a call returns and deregisters its handler
    | Subscribed(id: nat)   // a subscription's outcome has arrived; its handler stays
    | Respond(id: nat, decodes: bool, done: bool)  // respondSeq: lookup and Handle
    | StopLocally(id: nat)  // the local half of Stop
    | BeginClose            // Close sets its flag
    | DeregisterAll         // and then tears the dispatch map down

  predicate Enabled(st: State, step: Step) {
    match step
    case Sent(id) => id in st.calls && st.calls[id] == Registered && !st.shutdown
    case GiveUp(id) =>
      // Its send failed, the client was shut down, or it is a plain call and has its response.
      id in st.calls && (st.calls[id] == Registered || st.shutdown || id !in st.subs)
    case Subscribed(id) => id in st.calls && st.calls[id] == Waiting && id in st.subs && st.subs[id].outcomes > 0
    case DeregisterAll => st.shutdown && !st.tornDown
    case _ => true
  }

  // The handlers `ids` are deregistered and cleaned up.
  function Without(st: State, ids: set<nat>): State {
    st.(dispatch := st.dispatch - ids,
        subs := map id | id in st.subs :: if id in ids * st.dispatch then CleanedUp(st.subs[id]) else st.subs[id])
  }

  function Begun(st: State): State {
    var id := st.last + 1;
    st.(last := id, dispatch := st.dispatch + {id}, calls := st.calls[id := Registered])
  }

  function Next(st: State, step: Step): State
    requires Enabled(st, step)
  {
    match step
    case BeginSubscription =>
      var st' := Begun(st);
      st'.(subs := st.subs[st'.last := Sub(false, false, 0, 0, false)])
    case BeginCall => Begun(st)
    case Sent(id) => st.(calls := st.calls[id := Waiting])
    case GiveUp(id) => Without(st, {id}).(calls := st.calls - {id})
    case Subscribed(id) => st.(calls := st.calls - {id})
    case Respond(id, decodes, done) =>
      if id !in st.dispatch || id !in st.subs then st
      else
        var st' := st.(subs := st.subs[id := Received(st.subs[id], decodes, done)]);
        if Ends(st.subs[id], decodes, done) then Without(st', {id}) else st'
    case StopLocally(id) => Without(st, {id})
    case BeginClose => st.(shutdown := true)
    case DeregisterAll => Without(st, st.dispatch).(tornDown := true)
  }

  // Flags and channels tell the same story, and nothing came late.
  predicate Consistent(s: Sub) {
    && s.outcomes == (if s.init then 1 else 0) && s.chanCloses == (if s.closed then 1 else 0)
    && (s.closed ==> s.init) && !s.late
  }

  // What holds of the number id.
  ghost predicate Sound(st: State, id: nat) {
    && (id in st.subs ==> Consistent(st.subs[id]) && (st.subs[id].closed <==> id !in st.dispatch))
    && (id in st.subs && id !in st.calls ==> st.subs[id].init)
    && (id in st.dispatch ==> id in st.subs || id in st.calls)
    && (id in st.subs || id in st.dispatch || id in st.calls ==> id <= st.last)
    && (st.tornDown ==> st.shutdown && (id in st.dispatch ==> id in st.calls && st.calls[id] == Registered))
  }

  ghost predicate AllSound(st: State) {
    forall id: nat :: Sound(st, id)
  }

  lemma StepIsAllSound(st: State, step: Step)
    requires AllSound(st) && Enabled(st, step)
    ensures AllSound(Next(st, step))
  {
    forall id: nat ensures Sound(Next(st, step), id) {
      StepIsSound(st, step, id);
    }
  }

  lemma RespondIsSound(st: State, step: Step, id: nat)
    requires Sound(st, id) && step.Respond?
    ensures Sound(Next(st, step), id)
  {}

  lemma StepIsSound(st: State, step: Step, id: nat)
    requires Sound(st, id) && Enabled(st, step)
    ensures Sound(Next(st, step), id)
  {
    if step.Respond? {
      RespondIsSound(st, step, id);
    }
  }

  function Initial(): State {
    State(0, {}, map[], map[], false, false)
  }

  ghost predicate IsRun(sts: seq<State>, steps: seq<Step>) {
    && |sts| == |steps| + 1 && sts[0] == Initial()
    && forall i :: 0 <= i < |steps| ==> Follows(sts[i], steps[i], sts[i + 1])
  }

  predicate Follows(st: State, step: Step, st': State) {
    Enabled(st, step) && st' == Next(st, step)
  }

  lemma {:induction false} RunIsSound(sts: seq<State>, steps: seq<Step>, n: nat, id: nat)
    requires IsRun(sts, steps) && n <= |steps|
    ensures Sound(sts[n], id)
  {
    if n > 0 {
      RunIsSound(sts, steps, n - 1, id);
      assert Follows(sts[n - 1], steps[n - 1], sts[n]);
      StepIsSound(sts[n - 1], steps[n - 1], id);
    }
  }

  // Main theorem: in every reachable state no call has had two outcomes, no
  // channel was closed twice or sent to when closed, and a subscription's
  // channels are open as long as its handler is registered; a subscribing call
  // that has returned, or whose channels are closed, has had its one outcome.
  lemma NothingHappensTwice(sts: seq<State>, steps: seq<Step>, n: nat, id: nat)
    requires IsRun(sts, steps) && n <= |steps| && id in sts[n].subs
    ensures var s := sts[n].subs[id];
            && s.outcomes <= 1 && s.chanCloses <= 1 && !s.late
            && (s.chanCloses == 0 <==> id in sts[n].dispatch)
            && (id !in sts[n].calls || s.chanCloses == 1 ==> s.outcomes == 1)
  {
    RunIsSound(sts, steps, n, id);
  }

  // Once the client is closed and all its calls have returned, whatever came in
  // between, no handler is left, and every subscription ever made has had its
  // outcome and has closed its channels, once.
  lemma ClosedAndQuiet(sts: seq<State>, steps: seq<Step>, n: nat, id: nat)
    requires IsRun(sts, steps) && n <= |steps| && sts[n].tornDown && sts[n].calls == map[]
    ensures id !in sts[n].dispatch
    ensures id in sts[n].subs ==>
              sts[n].subs[id].outcomes == 1 && sts[n].subs[id].chanCloses == 1 && !sts[n].subs[id].late
  {
    RunIsSound(sts, steps, n, id);
  }

  // The handler `id` has left, if there ever was one, and what its subscriber got
  // is `was`.
  predicate Gone(st: State, id: nat, was: Option<Sub>) {
    && id <= st.last && id !in st.dispatch
    && (if id in st.subs then was == Some(st.subs[id]) else was == None)
  }

  lemma StepLeavesGone(st: State, step: Step, id: nat, was: Option<Sub>)
    requires Enabled(st, step) && Gone(st, id, was)
    ensures Gone(Next(st, step), id, was)
  {}

  // A handler that has left never comes back, and its subscriber hears no more.
  lemma {:induction false} GoneIsGone(sts: seq<State>, steps: seq<Step>, m: nat, n: nat, id: nat, was: Option<Sub>)
    requires IsRun(sts, steps) && m <= n <= |steps| && Gone(sts[m], id, was)
    ensures Gone(sts[n], id, was)
  {
    if m < n {
      GoneIsGone(sts, steps, m, n - 1, id, was);
      assert Follows(sts[n - 1], steps[n - 1], sts[n]);
      StepLeavesGone(sts[n - 1], steps[n - 1], id, was);
    }
  }

  // A registered handler leaves when its call gives up, when it is stopped, when
  // the client closes, and on a record that is bad or the last: and only then.
  lemma HandlerLeavesIff(st: State, step: Step, id: nat)
    requires Enabled(st, step) && id in st.subs && id in st.dispatch && id <= st.last
    ensures id !in Next(st, step).dispatch <==>
            || step == GiveUp(id) || step == StopLocally(id) || step.DeregisterAll?
            || (step.Respond? && step.id == id && st.subs[id].init && (step.done || !step.decodes))
  {}

  // After a bad or a final record the handler is gone for good: its call has had
  // its one outcome, and the subscriber's channels were closed once.
  lemma FinalRecordEndsIt(sts: seq<State>, steps: seq<Step>, m: nat, n: nat, id: nat)
    requires IsRun(sts, steps) && m < n <= |steps|
    requires id in sts[m].dispatch && id in sts[m].subs && sts[m].subs[id].init
    requires steps[m].Respond? && steps[m].id == id && (steps[m].done || !steps[m].decodes)
    ensures id in sts[m + 1].subs && Gone(sts[n], id, Some(sts[m + 1].subs[id]))
    ensures sts[n].subs[id].outcomes == 1 && sts[n].subs[id].chanCloses == 1 && !sts[n].subs[id].late
  {
    assert Follows(sts[m], steps[m], sts[m + 1]);
    RunIsSound(sts, steps, m, id);
    HandlerLeavesIff(sts[m], steps[m], id);
    GoneIsGone(sts, steps, m + 1, n, id, Some(sts[m + 1].subs[id]));
    RunIsSound(sts, steps, n, id);
  }

  lemma WithoutBoth(st: State, ids: set<nat>, id: nat)
    requires id !in ids
    ensures Without(Without(st, ids), {id}) == Without(st, ids + {id})
  {
    var a, b := Without(Without(st, ids), {id}), Without(st, ids + {id});
    assert a.dispatch == b.dispatch && a.subs == b.subs;
  }

  lemma WithoutNone(st: State)
    ensures Without(st, {}) == st
  {
    assert Without(st, {}).dispatch == st.dispatch && Without(st, {}).subs == st.subs;
  }

  // ---------------------------------------------------------------------
  // The objects that perform the steps.

  // The handler of a Monitor, Stream or Query call.
  class SubHandler {
    const id: nat
    var init: bool
    var closed: bool
    var outcomes: nat
    var chanCloses: nat
    var late: bool

    function Value(): Sub
      reads this
    {
      Sub(init, closed, outcomes, chanCloses, late)
    }

    constructor (id: nat)
      ensures this.id == id && Value() == Sub(false, false, 0, 0, false)
    {
      this.id, init, closed, outcomes, chanCloses, late := id, false, false, 0, 0, false;
    }

    method Handle(decodes: bool, done: bool) returns (keep: bool)
      modifies this
      ensures Value() == Received(old(Value()), decodes, done) && keep == !Ends(old(Value()), decodes, done)
      ensures keep == (!old(init) || (decodes && !done))
      ensures init && outcomes == old(outcomes) + if old(init) then 0 else 1
      ensures closed == old(closed) && chanCloses == old(chanCloses)
      ensures late == (old(late) || (old(init) && decodes && !done && chanCloses > 0))
    {
      if !init {
        init := true;
        outcomes := outcomes + 1;
        return true;
      }
      if !decodes {
        return false;
      }
      if !done {
        late := late || chanCloses > 0;
      }
      keep := !done;
    }

    method Cleanup()
      modifies this
      ensures Value() == CleanedUp(old(Value()))
      ensures closed && late == old(late)
      ensures old(closed) ==> Value() == old(Value())
      ensures !old(closed) ==>
                init && outcomes == old(outcomes) + (if old(init) then 0 else 1) && chanCloses == old(chanCloses) + 1
    {
      if !closed {
        if !init {
          init := true;
          outcomes := outcomes + 1;
        }
        chanCloses := chanCloses + 1;
        closed := true;
      }
    }
  }

  // The handler of a plain call has nothing to clean up.
  datatype Entry = CallEntry | SubEntry(h: SubHandler)

  class RPCClient {
    var last: nat
    var dispatch: map<nat, Entry>
    var shutdown: bool
    ghost var subs: map<nat, SubHandler>  // every subscription ever made
    ghost var state: State

    // The object is in the state `state`, which satisfies what runs keep.
    ghost predicate Valid()
      reads this, subs.Values
    {
      Shows() && AllSound(state)
    }

    ghost predicate Shows()
      reads this, subs.Values
    {
      && last == state.last && shutdown == state.shutdown
      && dispatch.Keys == state.dispatch && subs.Keys == state.subs.Keys
      && (forall id :: id in dispatch ==> id <= last && (dispatch[id].SubEntry? <==> id in subs))
      && (forall id :: id in dispatch && dispatch[id].SubEntry? ==> dispatch[id].h == subs[id])
      && (forall id :: id in subs ==> id <= last && subs[id].id == id && subs[id].Value() == state.subs[id])
    }

    constructor ()
      ensures Valid() && state == Initial() && dispatch == map[]
    {
      last, dispatch, shutdown, subs, state := 0, map[], false, map[], Initial();
    }

    method BeginSub() returns (id: nat)
      requires Valid()
      modifies this
      ensures Valid() && state == Next(old(state), BeginSubscription)
      ensures id == last == old(last) + 1 && id in subs && fresh(subs[id]) && subs == old(subs)[id := subs[id]]
      ensures dispatch == old(dispatch)[id := SubEntry(subs[id])] && subs[id].Value() == Sub(false, false, 0, 0, false)
    {
      StepIsAllSound(state, BeginSubscription);
      last := last + 1;
      id := last;
      var h := new SubHandler(id);
      dispatch := dispatch[id := SubEntry(h)];
      subs := subs[id := h];
      state := Next(state, BeginSubscription);
    }

    method BeginRPC() returns (id: nat)
      requires Valid()
      modifies this
      ensures Valid() && state == Next(old(state), BeginCall) && subs == old(subs)
      ensures id == last == old(last) + 1 && dispatch == old(dispatch)[id := CallEntry]
    {
      StepIsAllSound(state, BeginCall);
      last := last + 1;
      id := last;
      dispatch := dispatch[id := CallEntry];
      state := Next(state, BeginCall);
    }

    method Send(id: nat) returns (ok: bool)
      requires Valid() && id in state.calls && state.calls[id] == Registered
      modifies this`state
      ensures Valid() && ok == !shutdown && state == if ok then Next(old(state), Sent(id)) else old(state)
    {
      ok := !shutdown;
      if ok {
        StepIsAllSound(state, Sent(id));
        state := Next(state, Sent(id));
      }
    }

    method ReturnSubscribed(id: nat)
      requires Valid() && Enabled(state, Subscribed(id))
      modifies this`state
      ensures Valid() && state == Next(old(state), Subscribed(id))
    {
      StepIsAllSound(state, Subscribed(id));
      state := Next(state, Subscribed(id));
    }

    method DeregisterHandler(id: nat)
      requires Shows()
      modifies this`dispatch, this`state, subs.Values
      ensures Shows() && state == Without(old(state), {id}) && dispatch == old(dispatch) - {id}
      ensures forall i :: i in subs && i != id ==> unchanged(subs[i])
    {
      if id in dispatch {
        var e := dispatch[id];
        dispatch := dispatch - {id};
        if e.SubEntry? {
          e.h.Cleanup();
        }
      }
      state := Without(state, {id});
    }

    method ReturnGivingUp(id: nat)
      requires Valid() && Enabled(state, GiveUp(id))
      modifies this`dispatch, this`state, subs.Values
      ensures Valid() && state == Next(old(state), GiveUp(id)) && dispatch == old(dispatch) - {id}
      ensures forall i :: i in subs && i != id ==> unchanged(subs[i])
    {
      StepIsAllSound(state, GiveUp(id));
      DeregisterHandler(id);
      state := state.(calls := state.calls - {id});
    }

    // respondSeq: lookup and Handle as one step. Outside of `Next`: a
    // subscription's handler stays iff this is its response or a good record that
    // is not the last, and when it leaves its channels have been closed once.
    method RespondSeq(id: nat, decodes: bool, done: bool)
      requires Valid()
      modifies this`dispatch, this`state, subs.Values
      ensures Valid() && state == Next(old(state), Respond(id, decodes, done))
      ensures dispatch == old(dispatch) || dispatch == old(dispatch) - {id}
      ensures forall i :: i in subs && i != id ==> unchanged(subs[i])
      ensures id in old(dispatch) && id !in subs ==> dispatch == old(dispatch)
      ensures id in old(dispatch) && id in subs ==>
                && (id in dispatch <==> !old(subs[id].init) || (decodes && !done))
                && subs[id].init && subs[id].outcomes == 1 && !subs[id].late
                && subs[id].chanCloses == if id in dispatch then 0 else 1
    {
      StepIsAllSound(state, Respond(id, decodes, done));
      DeliverFrame(id, decodes, done);
      assert Sound(state, id);
    }

    method DeliverFrame(id: nat, decodes: bool, done: bool)
      requires Shows()
      modifies this`dispatch, this`state, subs.Values
      ensures Shows() && state == Next(old(state), Respond(id, decodes, done))
      ensures dispatch == old(dispatch) || dispatch == old(dispatch) - {id}
      ensures forall i :: i in subs && i != id ==> unchanged(subs[i])
      ensures id in old(dispatch) && id !in subs ==> dispatch == old(dispatch)
      ensures id in old(dispatch) && id in subs ==>
                subs[id].init && (id in dispatch <==> !old(subs[id].init) || (decodes && !done))
    {
      if id in dispatch && dispatch[id].SubEntry? {
        var keep := HandleFrame(id, dispatch[id].h, decodes, done);
        if !keep {
          DeregisterHandler(id);
        }
      }
    }

    method HandleFrame(id: nat, h: SubHandler, decodes: bool, done: bool) returns (keep: bool)
      requires Shows() && id in subs && subs[id] == h
      modifies this`state, h
      ensures Shows()
      ensures state == old(state).(subs := old(state).subs[id := Received(old(state).subs[id], decodes, done)])
      ensures keep == !Ends(old(state).subs[id], decodes, done)
      ensures h.init && keep == (!old(h.init) || (decodes && !done))
    {
      keep := h.Handle(decodes, done);
      state := state.(subs := state.subs[id := Received(state.subs[id], decodes, done)]);
    }

    method StopSubscription(handle: nat)
      requires Valid()
      modifies this`dispatch, this`state, subs.Values
      ensures Valid() && state == Next(old(state), StopLocally(handle)) && dispatch == old(dispatch) - {handle}
      ensures forall i :: i in subs && i != handle ==> unchanged(subs[i])
    {
      StepIsAllSound(state, StopLocally(handle));
      DeregisterHandler(handle);
    }

    // Close, first half. True when this call is the one that closes.
    method BeginClosing() returns (first: bool)
      requires Valid()
      modifies this`shutdown, this`state
      ensures Valid() && state == Next(old(state), BeginClose) && first == !old(shutdown)
    {
      StepIsAllSound(state, BeginClose);
      first := !shutdown;
      shutdown := true;
      state := Next(state, BeginClose);
    }

    // Close, second half: deregisterAll, in any order.
    method FinishClosing()
      requires Valid() && Enabled(state, DeregisterAll)
      modifies this`dispatch, this`state, subs.Values
      ensures Valid() && state == Next(old(state), DeregisterAll) && dispatch == map[]
      ensures forall id :: id in subs ==> subs[id].outcomes == 1 && subs[id].chanCloses == 1
    {
      StepIsAllSound(state, DeregisterAll);
      CleanUpAll();
      state := state.(tornDown := true);
      forall id | id in subs ensures subs[id].outcomes == 1 && subs[id].chanCloses == 1 {
        assert Sound(state, id);
      }
    }

    method CleanUpAll()
      requires Shows()
      modifies this`dispatch, this`state, subs.Values
      ensures Shows() && state == Without(old(state), old(state).dispatch) && dispatch == map[]
    {
      var todo := dispatch.Keys;
      ghost var done: set<nat> := {};
      WithoutNone(state);
      while todo != {}
        invariant Shows() && todo == dispatch.Keys && todo !! done && todo + done == old(state).dispatch
        invariant state == Without(old(state), done)
        decreases todo
      {
        var id :| id in todo;
        todo := todo - {id};
        DeregisterHandler(id);
        WithoutBoth(old(state), done, id);
        done := done + {id};
      }
      assert dispatch == map[] && done == old(state).dispatch;
    }
  }
}
