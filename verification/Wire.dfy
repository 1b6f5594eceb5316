// One connection between a client (client/rpc_client.go) and the agent
// (command/agent/ipc.go), after handshake and authentication. Headers and
// bodies travel as tokens; nothing on the wire says whether a body follows a
// header, so both ends must work that out from what they know.
module Wire {
  import opened Wrappers

  datatype Command =
    | Handshake | Auth | Event | ForceLeave | Join | Members | MembersFiltered | StreamEvents | Stop | Monitor
    | Leave | InstallKey | UseKey | RemoveKey | ListKeys | Tags | Query | Respond | Stats | ListMicroApps
    | ListRouters | UpdateRouters | GetCoordinate

  const AUTH_REQUIRED := "Authentication required"

  // ---------------------------------------------------------------------
  // What each end assumes about bodies.

  // The client's methods that pass no request object to send.
  predicate ClientSendsBody(c: Command) {
    !(c.Members? || c.Leave? || c.ListKeys? || c.Stats? || c.ListMicroApps? || c.ListRouters?)
  }

  // The agent's handlers that decode a request.
  predicate AgentDecodesBody(c: Command) {
    || c.Handshake? || c.Auth? || c.Event? || c.ForceLeave? || c.Join? || c.MembersFiltered? || c.StreamEvents?
    || c.Stop? || c.Monitor? || c.InstallKey? || c.UseKey? || c.RemoveKey? || c.Tags? || c.Query? || c.Respond?
    || c.UpdateRouters? || c.GetCoordinate?
  }

  // The agent's handlers that send an object after the response header.
  predicate AgentSendsBody(c: Command) {
    || c.Join? || c.Members? || c.MembersFiltered? || c.InstallKey? || c.UseKey? || c.RemoveKey? || c.ListKeys?
    || c.Stats? || c.ListMicroApps? || c.ListRouters? || c.GetCoordinate?
  }

  // The client's calls of genericRPC that pass a response object.
  predicate ClientDecodesBody(c: Command) {
    !(c.Handshake? || c.Auth? || c.Event? || c.ForceLeave? || c.Leave? || c.Tags? || c.Respond? || c.Stop?
      || c.UpdateRouters? || Subscribes(c))
  }

  // Commands answered by a stream of records.
  predicate Subscribes(c: Command) {
    c.StreamEvents? || c.Monitor? || c.Query?
  }

  datatype Request = Request(id: nat, cmd: Command, target: nat)

  datatype ReqToken = ReqHeader(id: nat, cmd: Command) | ReqBody(target: nat)

  // send on the client: a header, and the request object if there is one.
  function Encode(rs: seq<Request>): seq<ReqToken> {
    if rs == [] then []
    else
      [ReqHeader(rs[0].id, rs[0].cmd)]
      + (if ClientSendsBody(rs[0].cmd) then [ReqBody(rs[0].target)] else [])
      + Encode(rs[1..])
  }

  // handleClient and the decoding in each handler.
  function Decode(ts: seq<ReqToken>): Option<seq<Request>> {
    if ts == [] then Some([])
    else if ts[0].ReqBody? then None
    else if !AgentDecodesBody(ts[0].cmd) then
      match Decode(ts[1..])
      case None => None
      case Some(rs) => Some([Request(ts[0].id, ts[0].cmd, 0)] + rs)
    else if |ts| == 1 || ts[1].ReqHeader? then None
    else match Decode(ts[2..])
      case None => None
      case Some(rs) => Some([Request(ts[0].id, ts[0].cmd, ts[1].target)] + rs)
  }

  // The requests go out one after the other, each with its header first and one
  // object after it at most.
  lemma {:induction false} RequestsGoOutInTurn(rs: seq<Request>, r: Request)
    ensures Encode([r]) == [ReqHeader(r.id, r.cmd)] || Encode([r]) == [ReqHeader(r.id, r.cmd), ReqBody(r.target)]
    ensures Encode(rs + [r]) == Encode(rs) + Encode([r])
  {
    if rs != [] {
      RequestsGoOutInTurn(rs[1..], r);
      assert (rs + [r])[1..] == rs[1..] + [r];
    } else {
      assert rs + [r] == [r] && Encode([]) + Encode([r]) == Encode([r]);
    }
  }

  // The agent reads exactly the requests that the client wrote.
  lemma {:induction false} RequestsArriveIntact(rs: seq<Request>)
    requires forall i :: 0 <= i < |rs| && !ClientSendsBody(rs[i].cmd) ==> rs[i].target == 0
    ensures Decode(Encode(rs)) == Some(rs)
  {
    if rs != [] {
      RequestsArriveIntact(rs[1..]);
      var ts := Encode(rs);
      assert ts[if ClientSendsBody(rs[0].cmd) then 2 else 1..] == Encode(rs[1..]);
      assert [rs[0]] + rs[1..] == rs;
    }
  }

  // ---------------------------------------------------------------------
  // The client's reader.

  datatype Record = Result(cmd: Command) | LogLine | EventRecord | QueryAck | QueryResponse | QueryDone

  datatype Token = Header(id: nat, err: string) | Body(rec: Record)

  // What the decoder does with a record where a header is due. A record is a
  // map with neither of a header's keys: a strict decoder rejects the keys it
  // does not know, a tolerant one skips them and leaves the header as it was.
  datatype Decoder = Strict | Tolerant

  // An entry of the client's dispatch map.
  datatype Handler = Call(cmd: Command, answered: bool) | Sub(cmd: Command, init: bool)

  type Dispatch = map<nat, Handler>

  // The dispatch map, and the number in the header that was read last: listen
  // decodes every header into the same variable.
  datatype Reader = Reader(dec: Decoder, dispatch: Dispatch, at: nat) {
    function Set(s: nat, h: Handler): Reader {
      this.(dispatch := dispatch[s := h])
    }

    function Remove(s: nat): Reader {
      this.(dispatch := dispatch - {s})
    }
  }

  function NewHandler(c: Command): Handler {
    if Subscribes(c) then Sub(c, false) else Call(c, false)
  }

  // The records that a subscription's handler can decode.
  predicate Accepts(c: Command, rec: Record) {
    match c
    case Monitor => rec.LogLine?
    case StreamEvents => rec.EventRecord?
    case Query => rec.QueryAck? || rec.QueryResponse? || rec.QueryDone?
    case _ => false
  }

  // What handler h makes of the frame at the head of w: the handler it becomes,
  // if it stays registered, and the number of tokens it reads. None means that
  // it met something else than it expected.
  function Handle(h: Handler, w: seq<Token>): (r: Option<(Option<Handler>, nat)>)
    requires w != [] && w[0].Header?
    ensures r.Some? ==> 1 <= r.value.1 <= |w| && (r.value.1 == 1 || (r.value.1 == 2 && w[1].Body?))
  {
    match h
    case Call(c, answered) =>
      if answered then None
      else if !ClientDecodesBody(c) || w[0].err == AUTH_REQUIRED then Some((Some(Call(c, true)), 1))
      else if |w| > 1 && w[1] == Body(Result(c)) then Some((Some(Call(c, true)), 2))
      else None
    case Sub(c, init) =>
      if !init then Some((Some(Sub(c, true)), 1))
      else if |w| > 1 && w[1].Body? && Accepts(c, w[1].rec) then
        Some((if w[1].rec.QueryDone? then None else Some(h), 2))
      else None
  }

  function Put(d: Dispatch, s: nat, h: Option<Handler>): Dispatch {
    if h.Some? then d[s := h.value] else d - {s}
  }

  // One turn of listen: a header, and the body if its handler reads one. A
  // record in the place of a header is an error, unless it is skipped and the
  // number left from the last header is nobody's.
  function ReadFrame(c: Reader, w: seq<Token>): (r: Option<(Reader, seq<Token>)>)
    requires w != []
    ensures r.Some? ==> r.value.0.dec == c.dec && |r.value.1| < |w|
  {
    if w[0].Body? then
      if c.dec.Tolerant? && !w[0].rec.Result? && c.at !in c.dispatch then Some((c, w[1..])) else None
    else if w[0].id !in c.dispatch then Some((c.(at := w[0].id), w[1..]))
    else match Handle(c.dispatch[w[0].id], w)
      case None => None
      case Some((h, n)) => Some((Reader(c.dec, Put(c.dispatch, w[0].id, h), w[0].id), w[n..]))
  }

  // The reader once everything on the wire has been read.
  function Drain(c: Reader, w: seq<Token>): (r: Option<Reader>)
    ensures r.Some? ==> r.value.dec == c.dec
    decreases |w|
  {
    if w == [] then Some(c)
    else match ReadFrame(c, w)
      case None => None
      case Some((c', rest)) => Drain(c', rest)
  }

  ghost predicate Mentions(w: seq<Token>, s: nat) {
    exists i :: 0 <= i < |w| && w[i].Header? && w[i].id == s
  }

  // A turn of listen reads a header, perhaps with its body, or skips a record.
  lemma ReadsOneFrame(c: Reader, w: seq<Token>, s: nat) returns (n: nat)
    requires w != [] && ReadFrame(c, w).Some?
    ensures 1 <= n <= |w| && ReadFrame(c, w).value.1 == w[n..]
    ensures Mentions(w, s) <==> (w[0].Header? && w[0].id == s) || Mentions(w[n..], s)
    ensures n == 1 || (n == 2 && w[0].Header? && w[1].Body?)
  {
    n := |w| - |ReadFrame(c, w).value.1|;
  }

  lemma ReadAppend(c: Reader, w: seq<Token>, x: seq<Token>)
    requires w != [] && ReadFrame(c, w).Some?
    ensures ReadFrame(c, w + x) == Some((ReadFrame(c, w).value.0, ReadFrame(c, w).value.1 + x))
  {
    var n := |w| - |ReadFrame(c, w).value.1|;
    assert (w + x)[n..] == w[n..] + x;
    assert (w + x)[0] == w[0] && (|w| > 1 ==> (w + x)[1] == w[1]);
    if w[0].Header? && w[0].id in c.dispatch {
      assert Handle(c.dispatch[w[0].id], w + x) == Handle(c.dispatch[w[0].id], w);
    }
  }

  lemma {:induction false} DrainAppend(c: Reader, w: seq<Token>, x: seq<Token>)
    requires Drain(c, w).Some?
    ensures Drain(c, w + x) == Drain(Drain(c, w).value, x)
    decreases |w|
  {
    if w == [] {
      assert w + x == x;
    } else {
      ReadAppend(c, w, x);
      DrainAppend(ReadFrame(c, w).value.0, ReadFrame(c, w).value.1, x);
    }
  }

  lemma PutElsewhere(d: Dispatch, a: nat, v: Option<Handler>, s: nat, h: Handler)
    requires a != s
    ensures Put(d[s := h], a, v) == Put(d, a, v)[s := h] && Put(d - {s}, a, v) == Put(d, a, v) - {s}
  {}

  // A frame for another handler is read alike whether or not s is registered.
  lemma ReadIgnores(c: Reader, w: seq<Token>, s: nat, h: Handler)
    requires w != [] && ReadFrame(c, w).Some? && !(w[0].Header? && w[0].id == s)
    ensures var (c', rest) := ReadFrame(c, w).value;
            && (s in c.dispatch <==> s in c'.dispatch) && (s in c.dispatch ==> c'.dispatch[s] == c.dispatch[s])
            && (s != c.at ==> s != c'.at && ReadFrame(c.Set(s, h), w) == Some((c'.Set(s, h), rest)))
            && ReadFrame(c.Remove(s), w) == Some((c'.Remove(s), rest))
  {
    if w[0].Header? && w[0].id in c.dispatch {
      PutElsewhere(c.dispatch, w[0].id, Handle(c.dispatch[w[0].id], w).value.0, s, h);
    }
  }

  // What the reader does with the rest of the wire when handler s is set or
  // removed, as long as no frame is for s.
  lemma {:induction false} DrainIgnores(c: Reader, w: seq<Token>, s: nat, h: Handler)
    requires Drain(c, w).Some? && !Mentions(w, s)
    ensures s in c.dispatch <==> s in Drain(c, w).value.dispatch
    ensures s in c.dispatch ==> Drain(c, w).value.dispatch[s] == c.dispatch[s]
    ensures s != c.at ==> Drain(c.Set(s, h), w) == Some(Drain(c, w).value.Set(s, h))
    ensures Drain(c.Remove(s), w) == Some(Drain(c, w).value.Remove(s))
    decreases |w|
  {
    if w != [] {
      var n := ReadsOneFrame(c, w, s);
      ReadIgnores(c, w, s, h);
      DrainIgnores(ReadFrame(c, w).value.0, w[n..], s, h);
    }
  }

  // Reading adds no handler, and can only remove one that is initialised.
  lemma {:induction false} DrainAddsNothing(c: Reader, w: seq<Token>, s: nat)
    requires Drain(c, w).Some? && (s in c.dispatch ==> c.dispatch[s].Sub? && c.dispatch[s].init)
    ensures var d := Drain(c, w).value.dispatch; s in d ==> s in c.dispatch && d[s] == c.dispatch[s]
    decreases |w|
  {
    if w != [] {
      DrainAddsNothing(ReadFrame(c, w).value.0, ReadFrame(c, w).value.1, s);
    }
  }

  // The frame that starts at w[i] is for s and has a body that cannot be read
  // without its handler.
  predicate NeedsHandler(dec: Decoder, w: seq<Token>, s: nat, i: nat) {
    && i + 1 < |w| && w[i].Header? && w[i].id == s
    && w[i + 1].Body? && (dec.Strict? || w[i + 1].rec.Result?)
  }

  ghost predicate Orphans(dec: Decoder, w: seq<Token>, s: nat) {
    exists i: nat :: i < |w| && NeedsHandler(dec, w, s, i)
  }

  lemma OrphansStep(dec: Decoder, w: seq<Token>, s: nat, n: nat)
    requires 1 <= n <= 2 && n <= |w| && (n == 2 ==> w[1].Body?)
    ensures Orphans(dec, w, s) <==> NeedsHandler(dec, w, s, 0) || Orphans(dec, w[n..], s)
  {
    if i: nat :| i < |w[n..]| && NeedsHandler(dec, w[n..], s, i) {
      assert NeedsHandler(dec, w, s, n + i);
    }
    if i: nat :| 0 < i < |w| && NeedsHandler(dec, w, s, i) {
      assert NeedsHandler(dec, w[n..], s, i - n);
    }
  }

  // A frame for s read with its handler and, if that is possible, without it.
  lemma ReadWithout(c: Reader, w: seq<Token>, s: nat)
    requires w != [] && Drain(c, w).Some? && w[0].Header? && w[0].id == s && s in c.dispatch
    ensures var (c', rest) := ReadFrame(c, w).value;
            if NeedsHandler(c.dec, w, s, 0) then Drain(c.Remove(s), w).None?
            else Drain(c.Remove(s), w) == Drain(c'.Remove(s), rest)
  {
    var (c', rest) := ReadFrame(c, w).value;
    var c1 := c.Remove(s).(at := s);
    assert c'.Remove(s) == c1;
    assert ReadFrame(c.Remove(s), w) == Some((c1, w[1..]));
    if |w| > 1 {
      assert w[1..][0] == w[1] && w[1..][1..] == w[2..];
    }
  }

  // What is read without handler s needs no handler s.
  lemma {:induction false} NoOrphansWithout(c: Reader, w: seq<Token>, s: nat)
    requires Drain(c, w).Some? && s !in c.dispatch
    ensures !Orphans(c.dec, w, s)
    decreases |w|
  {
    if w != [] {
      var n := ReadsOneFrame(c, w, s);
      OrphansStep(c.dec, w, s, n);
      NoOrphansWithout(ReadFrame(c, w).value.0, w[n..], s);
    }
  }

  // Taking a handler away is harmless iff nothing on its way needs it; all
  // others then read what they would have read.
  lemma {:induction false} DropIsReadableIff(c: Reader, w: seq<Token>, s: nat)
    requires Drain(c, w).Some? && s in c.dispatch
    ensures Drain(c.Remove(s), w).Some? <==> !Orphans(c.dec, w, s)
    ensures Drain(c.Remove(s), w).Some? ==> Drain(c.Remove(s), w) == Some(Drain(c, w).value.Remove(s))
    decreases |w|
  {
    if w != [] {
      var n := ReadsOneFrame(c, w, s);
      var c' := ReadFrame(c, w).value.0;
      OrphansStep(c.dec, w, s, n);
      if w[0].Header? && w[0].id == s {
        ReadWithout(c, w, s);
      } else {
        ReadIgnores(c, w, s, c.dispatch[s]);
      }
      if s in c'.dispatch {
        DropIsReadableIff(c', w[n..], s);
      } else {
        NoOrphansWithout(c', w[n..], s);
        DrainAddsNothing(c', w[n..], s);
        assert c'.Remove(s) == c' && Drain(c', w[n..]).value.Remove(s) == Drain(c', w[n..]).value;
      }
    }
  }

  // Once a subscription is initialised, a strict decoder needs its handler for
  // every frame, and a tolerant one for none.
  lemma {:induction false} SubscriptionOrphans(c: Reader, w: seq<Token>, s: nat)
    requires Drain(c, w).Some? && s in c.dispatch && c.dispatch[s].Sub? && c.dispatch[s].init
    ensures Orphans(c.dec, w, s) <==> c.dec.Strict? && Mentions(w, s)
    decreases |w|
  {
    if w != [] {
      var n := ReadsOneFrame(c, w, s);
      var c' := ReadFrame(c, w).value.0;
      OrphansStep(c.dec, w, s, n);
      if s in c'.dispatch {
        SubscriptionOrphans(c', w[n..], s);
      } else {
        NoOrphansWithout(c', w[n..], s);
      }
    }
  }
}
