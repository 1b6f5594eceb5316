// All event streams of an agent together, or all its log streams: they are
// opened and closed, events or lines are handed to those that are open, and each
// sends at its own pace.
module StreamRuns {
  import opened Streams

  // The streams in the order in which they were opened, and those still open.
  datatype State<!T> = State(feeds: seq<Feed<T>>, open: set<nat>)

  datatype Step<!T> =
    | Open(accepts: T -> bool, first: seq<T>)  // `first` is replayed to it
    | Happens(e: T)
    | Forward(i: nat, sendFails: bool)
    | Close(i: nat)

  predicate Enabled<T>(st: State<T>, step: Step<T>) {
    match step
    case Forward(i, _) => i < |st.feeds| && st.feeds[i].queue != [] && !st.feeds[i].failed
    case Close(i) => i in st.open && i < |st.feeds|
    case _ => true
  }

  function Next<T>(st: State<T>, step: Step<T>): State<T>
    requires Enabled(st, step)
  {
    match step
    case Open(accepts, first) =>
      State(st.feeds + [OfferedAll(NewFeed(accepts), first)], st.open + {|st.feeds|})
    case Happens(e) =>
      st.(feeds := seq(|st.feeds|, i requires 0 <= i < |st.feeds| =>
                         if i in st.open then Offered(st.feeds[i], e) else st.feeds[i]))
    case Forward(i, sendFails) => st.(feeds := st.feeds[i := Forwarded(st.feeds[i], sendFails)])
    case Close(i) => State(st.feeds[i := st.feeds[i].(stops := st.feeds[i].stops + 1)], st.open - {i})
  }

  ghost predicate Follows<T>(st: State<T>, step: Step<T>, st': State<T>) {
    Enabled(st, step) && st' == Next(st, step)
  }

  ghost predicate IsRun<T>(sts: seq<State<T>>, steps: seq<Step<T>>) {
    && |sts| == |steps| + 1 && sts[0] == State([], {})
    && forall i :: 0 <= i < |steps| ==> FollowsAt(sts, steps, i)
  }

  ghost predicate FollowsAt<T>(sts: seq<State<T>>, steps: seq<Step<T>>, i: nat)
    requires i < |steps| && |sts| == |steps| + 1
  {
    Follows(sts[i], steps[i], sts[i + 1])
  }

  lemma RunSnoc<T>(sts: seq<State<T>>, steps: seq<Step<T>>, step: Step<T>)
    requires IsRun(sts, steps) && Enabled(sts[|steps|], step)
    ensures IsRun(sts + [Next(sts[|steps|], step)], steps + [step])
  {
    var sts', steps' := sts + [Next(sts[|steps|], step)], steps + [step];
    forall i | 0 <= i < |steps'| ensures FollowsAt(sts', steps', i) {
      if i < |steps| {
        assert FollowsAt(sts, steps, i);
      }
    }
  }

  // What holds of the i-th stream: its queue is open until it is closed, once.
  ghost predicate Sound<T>(st: State<T>, i: nat) {
    && (i in st.open ==> i < |st.feeds|)
    && (i < |st.feeds| ==> Faithful(st.feeds[i]) && st.feeds[i].stops == if i in st.open then 0 else 1)
  }

  lemma StepIsSound<T>(st: State<T>, step: Step<T>, i: nat)
    requires Sound(st, i) && Enabled(st, step)
    ensures Sound(Next(st, step), i)
  {
    match step
    case Open(accepts, first) =>
      if i == |st.feeds| {
        OfferingAllIsFaithful(NewFeed(accepts), first);
        OfferingAllHears(NewFeed(accepts), first);
      }
    case Happens(e) =>
      if i < |st.feeds| {
        OfferingIsFaithful(st.feeds[i], e);
      }
    case Forward(j, sendFails) =>
      if j == i {
        ForwardingIsFaithful(st.feeds[i], sendFails);
      }
    case _ =>
  }

  lemma {:induction false} RunIsSound<T>(sts: seq<State<T>>, steps: seq<Step<T>>, n: nat, i: nat)
    requires IsRun(sts, steps) && n <= |steps|
    ensures Sound(sts[n], i)
  {
    if n > 0 {
      RunIsSound(sts, steps, n - 1, i);
      assert FollowsAt(sts, steps, n - 1);
      StepIsSound(sts[n - 1], steps[n - 1], i);
    }
  }

  // The events among some steps.
  function Events<T>(steps: seq<Step<T>>): seq<T> {
    if steps == [] then []
    else
      var n := |steps| - 1;
      Events(steps[..n]) + if steps[n].Happens? then [steps[n].e] else []
  }

  // The m-th step opens the i-th stream; `end` is where it is closed, or the
  // present when it is open.
  ghost predicate Spans<T>(sts: seq<State<T>>, steps: seq<Step<T>>, n: nat, i: nat, m: nat, end: nat)
    requires n <= |steps| && |sts| == |steps| + 1
  {
    && m < end <= n && steps[m].Open? && |sts[m].feeds| == i
    && if end == n then i in sts[n].open else steps[end] == Close(i)
  }

  // What has become of the stream that heard `heard`.
  ghost predicate Heard<T>(st: State<T>, i: nat, accepts: T -> bool, heard: seq<T>) {
    i < |st.feeds| && st.feeds[i].accepts == accepts && st.feeds[i].offered == heard
  }

  lemma StepIsHeard<T>(st: State<T>, step: Step<T>, st': State<T>, i: nat, accepts: T -> bool, heard: seq<T>)
    requires Heard(st, i, accepts, heard) && Follows(st, step, st') && i in st.open && step != Close(i)
    ensures Heard(st', i, accepts, heard + (if step.Happens? then [step.e] else [])) && i in st'.open
  {}

  lemma ClosedStreamsHearNothing<T>(st: State<T>, step: Step<T>, st': State<T>, i: nat, accepts: T -> bool,
                                    heard: seq<T>)
    requires Heard(st, i, accepts, heard) && Follows(st, step, st') && (i in st.open ==> step == Close(i))
    ensures Heard(st', i, accepts, heard) && i !in st'.open
  {}

  // What the stream that the m-th step opens is handed until `end`.
  function SpanOf<T>(steps: seq<Step<T>>, m: nat, end: nat): seq<T>
    requires m < end <= |steps| && steps[m].Open?
  {
    steps[m].first + Events(steps[m + 1..end])
  }

  lemma SpanSnoc<T>(steps: seq<Step<T>>, m: nat, n: nat)
    requires m < n < |steps| && steps[m].Open?
    ensures SpanOf(steps, m, n + 1) == SpanOf(steps, m, n) + (if steps[n].Happens? then [steps[n].e] else [])
  {
    assert steps[m + 1..n + 1] == steps[m + 1..n] + [steps[n]];
    assert steps[m + 1..n + 1][..n - m - 1] == steps[m + 1..n];
  }

  lemma OpenedStreamHeard<T>(sts: seq<State<T>>, steps: seq<Step<T>>, m: nat)
    requires IsRun(sts, steps) && m < |steps| && steps[m].Open?
    ensures Heard(sts[m + 1], |sts[m].feeds|, steps[m].accepts, SpanOf(steps, m, m + 1))
    ensures |sts[m].feeds| in sts[m + 1].open
  {
    assert FollowsAt(sts, steps, m);
    OfferingAllHears(NewFeed(steps[m].accepts), steps[m].first);
  }

  lemma SpansBefore<T>(sts: seq<State<T>>, steps: seq<Step<T>>, n: nat, i: nat, m: nat, end: nat)
    requires IsRun(sts, steps) && m + 1 < n <= |steps| && Spans(sts, steps, n, i, m, end)
    ensures Spans(sts, steps, n - 1, i, m, if end == n then n - 1 else end)
  {
    assert FollowsAt(sts, steps, n - 1);
    if end == n {
      OpenBefore(sts, steps, n - 1, i, m);
    }
  }

  lemma SpanGrows<T>(sts: seq<State<T>>, steps: seq<Step<T>>, n: nat, i: nat, m: nat, end: nat)
    requires IsRun(sts, steps) && m + 1 < n <= |steps| && Spans(sts, steps, n, i, m, end)
    requires var end' := if end == n then n - 1 else end;
             && Heard(sts[n - 1], i, steps[m].accepts, SpanOf(steps, m, end'))
             && (i in sts[n - 1].open <==> end' == n - 1)
    ensures Heard(sts[n], i, steps[m].accepts, SpanOf(steps, m, end))
    ensures i in sts[n].open <==> end == n
  {
    var step, end' := steps[n - 1], if end == n then n - 1 else end;
    var heard := SpanOf(steps, m, end');
    assert FollowsAt(sts, steps, n - 1);
    if end == n {
      StepIsHeard(sts[n - 1], step, sts[n], i, steps[m].accepts, heard);
      SpanSnoc(steps, m, n - 1);
    } else {
      ClosedStreamsHearNothing(sts[n - 1], step, sts[n], i, steps[m].accepts, heard);
    }
  }

  // A stream's handler is called with exactly what is replayed to it when it is
  // registered and what is handed out from then to its stop.
  lemma {:induction false} StreamsHearTheirSpan<T>(sts: seq<State<T>>, steps: seq<Step<T>>, n: nat, i: nat,
                                                   m: nat, end: nat)
    requires IsRun(sts, steps) && n <= |steps| && Spans(sts, steps, n, i, m, end)
    ensures Heard(sts[n], i, steps[m].accepts, SpanOf(steps, m, end))
    ensures i in sts[n].open <==> end == n
    decreases n
  {
    if n == m + 1 {
      OpenedStreamHeard(sts, steps, m);
    } else {
      SpansBefore(sts, steps, n, i, m, end);
      StreamsHearTheirSpan(sts, steps, n - 1, i, m, if end == n then n - 1 else end);
      SpanGrows(sts, steps, n, i, m, end);
    }
  }

  // A stream that is open after a step that did not open it was open before.
  lemma OpenBefore<T>(sts: seq<State<T>>, steps: seq<Step<T>>, n: nat, i: nat, m: nat)
    requires IsRun(sts, steps) && m < n < |steps| && steps[m].Open? && |sts[m].feeds| == i && i in sts[n + 1].open
    ensures i in sts[n].open
  {
    assert FollowsAt(sts, steps, n);
    FeedsStay(sts, steps, m, n);
  }

  lemma {:induction false} FeedsStay<T>(sts: seq<State<T>>, steps: seq<Step<T>>, m: nat, n: nat)
    requires IsRun(sts, steps) && m < n <= |steps| && steps[m].Open?
    ensures |sts[m].feeds| < |sts[n].feeds|
  {
    assert FollowsAt(sts, steps, n - 1);
    if m < n - 1 {
      FeedsStay(sts, steps, m, n - 1);
    }
  }

  lemma {:induction false} EveryStreamHasASpan<T>(sts: seq<State<T>>, steps: seq<Step<T>>, n: nat, i: nat)
    returns (m: nat, end: nat)
    requires IsRun(sts, steps) && n <= |steps| && i < |sts[n].feeds|
    ensures Spans(sts, steps, n, i, m, end)
  {
    assert FollowsAt(sts, steps, n - 1);
    if i == |sts[n - 1].feeds| {
      m, end := n - 1, n;
    } else {
      m, end := EveryStreamHasASpan(sts, steps, n - 1, i);
      if end == n - 1 && steps[n - 1] != Close(i) {
        end := n;
      }
    }
  }

  // Main theorem: what a stream sends is, in order, among those of these events
  // or lines that it accepts; with what is still queued it is all of them iff none
  // found the queue full.
  lemma StreamsSendTheirSpan<T>(sts: seq<State<T>>, steps: seq<Step<T>>, n: nat, i: nat, m: nat, end: nat)
    requires IsRun(sts, steps) && n <= |steps| && Spans(sts, steps, n, i, m, end)
    ensures i < |sts[n].feeds|
    ensures var f, matching := sts[n].feeds[i], Matching(steps[m].accepts, SpanOf(steps, m, end));
            && Subsequence(f.sent, matching)
            && (!f.failed ==> Subsequence(f.sent + f.queue, matching))
            && (!f.failed ==> (f.lost == 0 <==> f.sent + f.queue == matching))
  {
    StreamsHearTheirSpan(sts, steps, n, i, m, end);
    RunIsSound(sts, steps, n, i);
    if !sts[n].feeds[i].failed {
      CompleteIffNothingLost(sts[n].feeds[i]);
    }
  }
}
