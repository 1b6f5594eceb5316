// From Serf events to router-table operations:
// command/agent/discoverd_event_handler.go.
module EventHandler {
  import opened Digests
  import opened Routers
  import MsdRepo

  datatype MemberKind = MemberJoin | MemberLeave | MemberFailed | MemberUpdate | MemberReap

  // What the payload of a user event decodes to.
  datatype Payload = AppService(node: string, addr: string, services: seq<string>) | Address(addr: string) | Other

  datatype SerfEvent =
    | MemberEvent(kind: MemberKind, members: seq<string>)
    | UserEvent(name: string, payload: Payload)
    | Query(name: string)

  function EventType(e: SerfEvent): string {
    match e
    case MemberEvent(MemberJoin, _) => "member-join"
    case MemberEvent(MemberLeave, _) => "member-leave"
    case MemberEvent(MemberFailed, _) => "member-failed"
    case MemberEvent(MemberUpdate, _) => "member-update"
    case MemberEvent(MemberReap, _) => "member-reap"
    case UserEvent(_, _) => "user"
    case Query(_) => "query"
  }

  function HostFailures(members: seq<string>): seq<Event> {
    seq(|members|, i requires 0 <= i < |members| => HostFailed(members[i]))
  }

  // The table events that a Serf event stands for. A payload that does not
  // decode is logged and dropped.
  function TableEvents(e: SerfEvent): seq<Event> {
    match e
    case MemberEvent(kind, members) => if kind.MemberFailed? || kind.MemberLeave? then HostFailures(members) else []
    case UserEvent(name, p) =>
      if name == "rs" && p.AppService? then [Registered(p.node, p.addr, p.services)]
      else if name == "us" && p.Address? then [Unregistered(p.addr)]
      else []
    case Query(_) => []
  }

  // A Serf event puts the row (s, n, a) into the table, or takes older rows of a
  // at n out of it.
  predicate Puts(e: SerfEvent, s: string, n: string, a: string) {
    && e.UserEvent? && e.name == "rs" && e.payload.AppService?
    && e.payload.node == n && e.payload.addr == a && s in e.payload.services
  }

  predicate Takes(e: SerfEvent, n: string, a: string) {
    match e
    case MemberEvent(kind, members) => (kind.MemberFailed? || kind.MemberLeave?) && n in members
    case UserEvent(name, AppService(_, a0, _)) => name == "rs" && a0 == a
    case UserEvent(name, Address(a0)) => name == "us" && a0 == a
    case _ => false
  }

  lemma {:induction false} FailuresTakeRows(h: Hash, t: Table, members: seq<string>, s: string, n: string, a: string)
    ensures Lists(Run(h, t, HostFailures(members)), s, n, a) <==> Lists(t, s, n, a) && n !in members
  {
    var es := HostFailures(members);
    if members != [] {
      var k := |members| - 1;
      assert es[..k] == HostFailures(members[..k]) && members == members[..k] + [members[k]];
      FailuresTakeRows(h, t, members[..k], s, n, a);
      ApplyRows(h, Run(h, t, es[..k]), es[k], s, n, a);
    }
  }

  lemma EventChangesRow(h: Hash, t: Table, e: SerfEvent, s: string, n: string, a: string)
    ensures Lists(Run(h, t, TableEvents(e)), s, n, a) <==> Puts(e, s, n, a) || (Lists(t, s, n, a) && !Takes(e, n, a))
  {
    if e.MemberEvent? {
      FailuresTakeRows(h, t, e.members, s, n, a);
    } else if |TableEvents(e)| == 1 {
      assert TableEvents(e)[..0] == [];
      ApplyRows(h, t, TableEvents(e)[0], s, n, a);
    }
  }

  lemma EventChangesRows(h: Hash, t: Table, e: SerfEvent)
    ensures forall s, n, a :: Lists(Run(h, t, TableEvents(e)), s, n, a) <==>
              Puts(e, s, n, a) || (Lists(t, s, n, a) && !Takes(e, n, a))
  {
    forall s, n, a
      ensures Lists(Run(h, t, TableEvents(e)), s, n, a) <==>
              Puts(e, s, n, a) || (Lists(t, s, n, a) && !Takes(e, n, a))
    {
      EventChangesRow(h, t, e, s, n, a);
    }
  }

  // The row is listed once the events have been handled, from an empty table: one
  // of them put it there and none after that took it.
  ghost predicate PutAndKept(es: seq<SerfEvent>, s: string, n: string, a: string) {
    exists i :: 0 <= i < |es| && Puts(es[i], s, n, a) && NoneTakes(es[i + 1..], n, a)
  }

  predicate NoneTakes(es: seq<SerfEvent>, n: string, a: string) {
    forall j :: 0 <= j < |es| ==> !Takes(es[j], n, a)
  }

  lemma PutAndKeptSnoc(es: seq<SerfEvent>, e: SerfEvent, s: string, n: string, a: string)
    ensures PutAndKept(es + [e], s, n, a) <==> Puts(e, s, n, a) || (PutAndKept(es, s, n, a) && !Takes(e, n, a))
  {
    var k, fs := |es|, es + [e];
    forall i | 0 <= i < k
      ensures fs[i] == es[i] && (NoneTakes(fs[i + 1..], n, a) <==> NoneTakes(es[i + 1..], n, a) && !Takes(e, n, a))
    {
      NoneTakesSnoc(es[i + 1..], e, n, a);
      assert fs[i + 1..] == es[i + 1..] + [e];
    }
    assert fs[k] == e && fs[k + 1..] == [];
    if Puts(e, s, n, a) {
      assert NoneTakes(fs[k + 1..], n, a);
    }
  }

  lemma NoneTakesSnoc(es: seq<SerfEvent>, e: SerfEvent, n: string, a: string)
    ensures NoneTakes(es + [e], n, a) <==> NoneTakes(es, n, a) && !Takes(e, n, a)
  {
    assert (es + [e])[|es|] == e;
    assert forall j :: 0 <= j < |es| ==> (es + [e])[j] == es[j];
  }

  lemma {:induction false} EventsChangeRow(h: Hash, es: seq<SerfEvent>, s: string, n: string, a: string)
    ensures Lists(Run(h, map[], AllTableEvents(es)), s, n, a) <==> PutAndKept(es, s, n, a)
  {
    if es != [] {
      var init, e := es[..|es| - 1], es[|es| - 1];
      assert es == init + [e];
      EventsChangeRow(h, init, s, n, a);
      RunConcat(h, map[], AllTableEvents(init), TableEvents(e));
      EventChangesRow(h, Run(h, map[], AllTableEvents(init)), e, s, n, a);
      PutAndKeptSnoc(init, e, s, n, a);
    }
  }

  method RemoveMembers(repo: MsdRepo.DiscoverdRepo, members: seq<string>)
    requires repo.Valid()
    modifies repo, repo.owner.Keys
    ensures repo.Valid() && repo.owner == old(repo.owner)
    ensures repo.table == Run(repo.md5, old(repo.table), HostFailures(members))
  {
    ghost var es := HostFailures(members);
    for i := 0 to |members|
      invariant repo.Valid() && repo.owner == old(repo.owner)
      invariant repo.table == Run(repo.md5, old(repo.table), es[..i])
    {
      assert es[..i + 1][..i] == es[..i];
      repo.RemoveRouterByHost(members[i]);
    }
    assert es[..|members|] == es;
  }

  method HandleEvent(repo: MsdRepo.DiscoverdRepo, e: SerfEvent)
    requires repo.Valid()
    modifies repo, repo.owner.Keys
    ensures repo.Valid() && fresh(repo.owner.Keys - old(repo.owner).Keys)
    ensures repo.table == Run(repo.md5, old(repo.table), TableEvents(e))
    ensures e.MemberEvent? && (e.kind.MemberFailed? || e.kind.MemberLeave?) ==>
              forall s, n, a :: Lists(repo.table, s, n, a) <==> Lists(old(repo.table), s, n, a) && n !in e.members
    ensures e.UserEvent? && e.name == "rs" && e.payload.AppService? ==>
              var p := e.payload;
              forall s, n, a :: Lists(repo.table, s, n, a) <==>
                (n == p.node && a == p.addr && s in p.services) || (Lists(old(repo.table), s, n, a) && a != p.addr)
    ensures e.UserEvent? && e.name == "us" && e.payload.Address? ==>
              forall s, n, a :: Lists(repo.table, s, n, a) <==>
                Lists(old(repo.table), s, n, a) && a != e.payload.addr
    ensures || (e.MemberEvent? && (e.kind.MemberFailed? || e.kind.MemberLeave?))
            || (e.UserEvent? && e.name == "rs" && e.payload.AppService?)
            || (e.UserEvent? && e.name == "us" && e.payload.Address?)
            || repo.table == old(repo.table)
  {
    EventChangesRows(repo.md5, repo.table, e);
    match e {
      case MemberEvent(kind, members) =>
        if kind.MemberFailed? || kind.MemberLeave? {
          RemoveMembers(repo, members);
        }
      case UserEvent(name, p) =>
        if name == "rs" && p.AppService? {
          assert TableEvents(e)[..0] == [];
          repo.AddRouter(p.node, p.addr, p.services);
        } else if name == "us" && p.Address? {
          assert TableEvents(e)[..0] == [];
          repo.RemoveRouter(p.addr);
        }
      case Query(_) =>
    }
  }

  function AllTableEvents(es: seq<SerfEvent>): seq<Event> {
    if es == [] then [] else AllTableEvents(es[..|es| - 1]) + TableEvents(es[|es| - 1])
  }

  // The agent's event loop: the table is always the run of the events so far.
  method HandleEvents(repo: MsdRepo.DiscoverdRepo, es: seq<SerfEvent>)
    requires repo.Valid() && repo.table == map[]
    modifies repo, repo.owner.Keys
    ensures repo.Valid() && fresh(repo.owner.Keys - old(repo.owner).Keys)
    ensures repo.table == Run(repo.md5, map[], AllTableEvents(es)) && Inv(repo.md5, repo.table)
    ensures forall s, n, a :: Lists(repo.table, s, n, a) <==> PutAndKept(es, s, n, a)
  {
    for i := 0 to |es|
      invariant repo.Valid() && fresh(repo.owner.Keys - old(repo.owner).Keys)
      invariant repo.table == Run(repo.md5, map[], AllTableEvents(es[..i]))
    {
      assert es[..i + 1][..i] == es[..i];
      RunConcat(repo.md5, map[], AllTableEvents(es[..i]), TableEvents(es[i]));
      HandleEvent(repo, es[i]);
    }
    assert es[..|es|] == es;
    RunKeepsInv(repo.md5, map[], AllTableEvents(es));
    forall s, n, a ensures Lists(repo.table, s, n, a) <==> PutAndKept(es, s, n, a) {
      EventsChangeRow(repo.md5, es, s, n, a);
    }
  }
}
