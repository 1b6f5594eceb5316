// Event filters and their textual form: command/agent/event_handler.go.
module EventFilters {
  import opened Strings
  import opened EventHandler

  datatype EventFilter = EventFilter(event: string, name: string) {
    predicate Invoke(e: SerfEvent) {
      || event == "*"
      || (&& EventType(e) == event
          && (event == "user" && name != "" ==> e.UserEvent? && e.name == name)
          && (event == "query" && name != "" ==> e.Query? && e.name == name))
    }

    predicate Valid() {
      event in {"member-join", "member-leave", "member-failed", "member-update", "member-reap",
                "user", "query", "*"}
    }
  }

  // Which events each filter takes: of its own kind only, and of its own name if
  // it is a user or query filter with one.
  lemma FilterTakes(f: EventFilter, e: SerfEvent)
    ensures f.event == "*" ==> f.Invoke(e)
    ensures f.event == "user" ==> (f.Invoke(e) <==> e.UserEvent? && (f.name == "" || e.name == f.name))
    ensures f.event == "query" ==> (f.Invoke(e) <==> e.Query? && (f.name == "" || e.name == f.name))
    ensures f.event == "member-join" ==> (f.Invoke(e) <==> e.MemberEvent? && e.kind.MemberJoin?)
    ensures f.event == "member-leave" ==> (f.Invoke(e) <==> e.MemberEvent? && e.kind.MemberLeave?)
    ensures f.event == "member-failed" ==> (f.Invoke(e) <==> e.MemberEvent? && e.kind.MemberFailed?)
    ensures f.event == "member-update" ==> (f.Invoke(e) <==> e.MemberEvent? && e.kind.MemberUpdate?)
    ensures f.event == "member-reap" ==> (f.Invoke(e) <==> e.MemberEvent? && e.kind.MemberReap?)
    ensures !f.Valid() ==> !f.Invoke(e)
  {
    assert |"member-join"| == |"member-reap"| == 11 && |"member-failed"| == |"member-update"| == 13;
    assert "member-join"[7] != "member-reap"[7] && "member-failed"[7] != "member-update"[7];
  }

  datatype EventScript = EventScript(filter: EventFilter, script: string)

  // A filter is valid iff some event invokes it.
  lemma ValidIffInvocable(f: EventFilter)
    ensures f.Valid() <==> exists e: SerfEvent :: f.Invoke(e)
  {
    if f.Valid() {
      var e := match f.event
        case "member-join" => MemberEvent(MemberJoin, [])
        case "member-leave" => MemberEvent(MemberLeave, [])
        case "member-failed" => MemberEvent(MemberFailed, [])
        case "member-update" => MemberEvent(MemberUpdate, [])
        case "member-reap" => MemberEvent(MemberReap, [])
        case "user" => UserEvent(f.name, Other)
        case _ => Query(f.name);
      assert f.Invoke(e);
    }
  }

  function ParseOne(event: string): EventFilter {
    if HasPrefix(event, "user:") then EventFilter("user", event[5..])
    else if HasPrefix(event, "query:") then EventFilter("query", event[6..])
    else EventFilter(event, "")
  }

  // No filter means every event.
  function Pieces(v: string): seq<string> {
    Split(if v == "" then "*" else v, ',')
  }

  function ParseEach(events: seq<string>): seq<EventFilter> {
    seq(|events|, i requires 0 <= i < |events| => ParseOne(events[i]))
  }

  function Parsed(v: string): seq<EventFilter> {
    ParseEach(Pieces(v))
  }

  method ParseEventFilter(v: string) returns (results: seq<EventFilter>)
    ensures results == Parsed(v)
  {
    var events := Pieces(v);
    results := [];
    for i := 0 to |events|
      invariant results == Parsed(v)[..i]
    {
      assert Parsed(v)[i] == ParseOne(events[i]);
      var event, name := events[i], "";
      if HasPrefix(event, "user:") {
        name := event[5..];
        event := "user";
      } else if HasPrefix(event, "query:") {
        name := event[6..];
        event := "query";
      }
      results := results + [EventFilter(event, name)];
    }
  }

  method ParseEventScript(v: string) returns (results: seq<EventScript>)
    ensures var parts := Cut(v, '=');
            var filters := Parsed(if |parts| == 1 then "" else parts[0]);
            && |results| == |filters|
            && forall i :: 0 <= i < |results| ==> results[i] == EventScript(filters[i], parts[|parts| - 1])
  {
    var parts := Cut(v, '=');
    CutHead(v, '=');
    var filter, script := "", parts[0];
    if |parts| != 1 {
      filter, script := parts[0], parts[1];
    }
    var filters := ParseEventFilter(filter);
    results := [];
    for i := 0 to |filters|
      invariant |results| == i && forall j :: 0 <= j < i ==> results[j] == EventScript(filters[j], script)
    {
      results := results + [EventScript(filters[i], script)];
    }
  }

  // What a filter text without commas says.
  lemma ParsedSingle(x: string)
    requires ',' !in x
    ensures Parsed("user:" + x) == [EventFilter("user", x)]
    ensures Parsed("query:" + x) == [EventFilter("query", x)]
    ensures x != "" && !("user:" <= x) && !("query:" <= x) ==> Parsed(x) == [EventFilter(x, "")]
  {
    SplitHead("user:" + x, ',', "");
    SplitHead("query:" + x, ',', "");
    SplitHead(x, ',', "");
    assert ("user:" + x)[..5] == "user:" && ("user:" + x)[5..] == x;
    assert ("query:" + x)[..6] == "query:" && ("query:" + x)[6..] == x && ("query:" + x)[0] == 'q';
  }

  // A filter text is read piece by piece, and the empty one takes every event.
  lemma ParsedList(parts: seq<string>)
    requires parts != [] && forall p :: p in parts ==> p != "" && ',' !in p
    ensures |Parsed(Join(parts, ','))| == |parts|
    ensures forall i :: 0 <= i < |parts| ==> Parsed(parts[i]) == [Parsed(Join(parts, ','))[i]]
  {
    SplitJoin(parts, ',');
    assert parts[0] in parts;
    assert parts[0] <= Join(parts, ',');
    forall i | 0 <= i < |parts| ensures Parsed(parts[i]) == [Parsed(Join(parts, ','))[i]] {
      SplitHead(parts[i], ',', "");
    }
  }

  lemma EmptyFilterTakesAll(e: SerfEvent)
    ensures Parsed("") == [EventFilter("*", "")] && EventFilter("*", "").Invoke(e)
  {
    SplitHead("*", ',', "");
    assert Pieces("") == ["*"];
  }

  // ---------------------------------------------------------------------
  // Printing filters and reading them back.

  function Render(f: EventFilter): string {
    if f.name != "" then f.event + ":" + f.name else f.event
  }

  function Renders(fs: seq<EventFilter>): seq<string> {
    seq(|fs|, i requires 0 <= i < |fs| => Render(fs[i]))
  }

  function RenderAll(fs: seq<EventFilter>): string {
    Join(Renders(fs), ',')
  }

  // Names stand only on user and query filters, and no plain event starts with
  // a prefix kept for those.
  predicate Unambiguous(f: EventFilter) {
    if f.name != "" then f.event in {"user", "query"}
    else !HasPrefix(f.event, "user:") && !HasPrefix(f.event, "query:")
  }

  predicate CommaFree(f: EventFilter) {
    ',' !in f.event && ',' !in f.name
  }

  lemma ParseOneInvertsRender(f: EventFilter)
    ensures ParseOne(Render(f)) == f <==> Unambiguous(f)
  {
    var s := Render(f);
    if f.name != "" {
      assert s[..|f.event|] == f.event && s[|f.event|] == ':' && s[|f.event| + 1..] == f.name;
      if f.event == "user" {
        assert s[..5] == "user:";
      } else if f.event == "query" {
        assert s[..6] == "query:" && s[0] == 'q';
      }
    }
  }

  lemma ParsedAreCommaFree(v: string, i: nat)
    requires i < |Parsed(v)|
    ensures CommaFree(Parsed(v)[i])
  {
    var piece := Pieces(v)[i];
    assert piece in Pieces(v) && Parsed(v)[i] == ParseOne(piece);
    assert ',' !in "user" && ',' !in "query";
  }

  // Reading back what was printed gives the same filters iff there is something
  // to read, no part has a comma, and each filter is unambiguous.
  lemma FilterRoundTrip(fs: seq<EventFilter>)
    ensures Parsed(RenderAll(fs)) == fs <==>
            RenderAll(fs) != "" && forall i :: 0 <= i < |fs| ==> CommaFree(fs[i]) && Unambiguous(fs[i])
  {
    var v := RenderAll(fs);
    if v == "" {
      SplitHead("*", ',', "");
      assert Pieces("") == ["*"];
      var all := [EventFilter("*", "")];
      assert Parsed("") == all;
      assert Renders(all) == ["*"];
    } else if forall i :: 0 <= i < |fs| ==> CommaFree(fs[i]) {
      RendersAreCommaFree(fs);
      SplitJoin(Renders(fs), ',');
      forall i | 0 <= i < |fs| ensures Parsed(v)[i] == fs[i] <==> Unambiguous(fs[i]) {
        ParseOneInvertsRender(fs[i]);
      }
    } else {
      var i :| 0 <= i < |fs| && !CommaFree(fs[i]);
      if Parsed(v) == fs {
        ParsedAreCommaFree(v, i);
      }
    }
  }

  lemma RendersAreCommaFree(fs: seq<EventFilter>)
    requires forall i :: 0 <= i < |fs| ==> CommaFree(fs[i])
    ensures forall p :: p in Renders(fs) ==> ',' !in p
  {}
}
