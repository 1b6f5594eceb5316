// What a session must do before its commands are carried out:
// handleRequest, handleHandshake and handleAuth in command/agent/ipc.go.
module Handshake {

  const MIN_IPC_VERSION := 1
  const MAX_IPC_VERSION := 1

  datatype Request = Handshake(version: int) | Auth(key: string) | Command | Unrecognised

  datatype Verdict =
    | Okay
    | Dispatched
    | HandshakeRequired  // the connection is closed
    | AuthRequired
    | UnsupportedVersion
    | DuplicateHandshake
    | InvalidAuthToken
    | UnsupportedCommand  // the connection is closed

  class Session {
    const authKey: string
    var version: int
    var didAuth: bool
    var closed: bool
    ghost var history: seq<Request>  // the requests handled so far

    ghost predicate Valid()
      reads this
    {
      && (closed <==> !StaysOpen(history, authKey))
      && (!closed ==> version == (if HasHandshake(history) then 1 else 0) && (didAuth <==> HasAuth(history, authKey)))
    }

    constructor (authKey: string)
      ensures Valid() && this.authKey == authKey && history == [] && !closed
    {
      this.authKey, version, didAuth, closed, history := authKey, 0, false, false, [];
    }

    method HandleRequest(r: Request) returns (v: Verdict)
      requires Valid() && !closed
      modifies this
      ensures Valid() && history == old(history) + [r]
      ensures closed == (v.HandshakeRequired? || v.UnsupportedCommand?)
      ensures v.HandshakeRequired? <==> !r.Handshake? && !HasHandshake(old(history))
      ensures v.Dispatched? <==> r.Command? && Admitted(old(history), authKey)
      ensures v.UnsupportedCommand? <==> r.Unrecognised? && Admitted(old(history), authKey)
      ensures v.AuthRequired? <==>
              (r.Command? || r.Unrecognised?) && HasHandshake(old(history)) && !Admitted(old(history), authKey)
      ensures v.InvalidAuthToken? <==> r.Auth? && HasHandshake(old(history)) && r.key != authKey
      ensures v.UnsupportedVersion? <==> r.Handshake? && r.version != 1
      ensures v.DuplicateHandshake? <==> r == Handshake(1) && HasHandshake(old(history))
      ensures v.Okay? <==>
              if HasHandshake(old(history)) then r == Auth(authKey) else r == Handshake(1)
    {
      ghost var h := history;
      history := history + [r];
      HistorySnoc(h, r, authKey);
      if !r.Handshake? && version == 0 {
        closed := true;
        return HandshakeRequired;
      }
      if authKey != "" && !didAuth && !r.Auth? && !r.Handshake? {
        return AuthRequired;
      }
      match r {
        case Handshake(version') =>
          if version' < MIN_IPC_VERSION || version' > MAX_IPC_VERSION {
            v := UnsupportedVersion;
          } else if version != 0 {
            v := DuplicateHandshake;
          } else {
            version := version';
            v := Okay;
          }
        case Auth(key) =>
          if key == authKey {
            didAuth := true;
            v := Okay;
          } else {
            v := InvalidAuthToken;
          }
        case Command =>
          v := Dispatched;
        case Unrecognised =>
          closed := true;
          v := UnsupportedCommand;
      }
    }
  }

  // A handshake that the agent accepts.
  predicate HasHandshake(h: seq<Request>) {
    Handshake(1) in h
  }

  predicate HasAuth(h: seq<Request>, key: string) {
    Auth(key) in h
  }

  // Commands are carried out.
  predicate Admitted(h: seq<Request>, key: string) {
    HasHandshake(h) && (key == "" || HasAuth(h, key))
  }

  // Nothing but handshakes comes before the first accepted one, and no
  // unrecognised command once commands are carried out.
  ghost predicate StaysOpen(h: seq<Request>, key: string) {
    h == [] ||
    (var n := |h| - 1;
     && StaysOpen(h[..n], key)
     && (h[n].Handshake? || HasHandshake(h[..n]))
     && !(h[n].Unrecognised? && Admitted(h[..n], key)))
  }

  lemma HistorySnoc(h: seq<Request>, r: Request, key: string)
    ensures HasHandshake(h + [r]) <==> HasHandshake(h) || r == Handshake(1)
    ensures HasAuth(h + [r], key) <==> HasAuth(h, key) || r == Auth(key)
    ensures StaysOpen(h + [r], key) <==>
            && StaysOpen(h, key)
            && (r.Handshake? || HasHandshake(h))
            && !(r.Unrecognised? && Admitted(h, key))
  {
    assert (h + [r])[..|h|] == h;
  }
}
