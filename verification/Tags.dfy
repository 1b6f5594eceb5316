// Tags in their "key=value" form: command/agent/agent.go.
module Tags {
  import opened Listings
  import opened Strings
  import opened Wrappers

  type TagMap = map<string, string>

  function Line(m: TagMap, k: string): string
    requires k in m
  {
    k + ['='] + m[k]
  }

  // The lines of m, in the key order ks.
  ghost predicate Lines(lines: seq<string>, m: TagMap, ks: seq<string>) {
    && Enumerates(ks, m.Keys)
    && |lines| == |ks|
    && forall i :: 0 <= i < |ks| ==> ks[i] in m && lines[i] == Line(m, ks[i])
  }

  // Go visits the map in any order.
  method MarshalTags(tags: TagMap) returns (result: seq<string>)
    ensures exists ks :: Lines(result, tags, ks)
  {
    result := [];
    ghost var ks := [];
    var todo := tags.Keys;
    while todo != {}
      invariant todo <= tags.Keys && Enumerates(ks, tags.Keys - todo)
      invariant |result| == |ks| && forall i :: 0 <= i < |ks| ==> ks[i] in tags && result[i] == Line(tags, ks[i])
      decreases todo
    {
      var name :| name in todo;
      todo := todo - {name};
      result, ks := result + [Line(tags, name)], ks + [name];
    }
    assert Lines(result, tags, ks);
  }

  function Unmarshalled(lines: seq<string>): Option<TagMap> {
    if lines == [] then Some(map[])
    else
      var n := |lines| - 1;
      var parts := Cut(lines[n], '=');
      match Unmarshalled(lines[..n])
      case None => None
      case Some(m) => if |parts| != 2 || parts[0] == "" then None else Some(m[parts[0] := parts[1]])
  }

  lemma {:induction false} UnmarshalFailsForGood(lines: seq<string>, i: nat)
    requires i <= |lines| && Unmarshalled(lines[..i]).None?
    ensures Unmarshalled(lines).None?
    decreases |lines|
  {
    if i == |lines| {
      assert lines[..i] == lines;
    } else {
      var n := |lines| - 1;
      assert lines[..n][..i] == lines[..i];
      UnmarshalFailsForGood(lines[..n], i);
    }
  }

  // The line gives key k the value v.
  predicate Gives(line: string, k: string, v: string) {
    k != "" && '=' !in k && line == k + ['='] + v
  }

  // A line is read iff it gives some key a value.
  lemma LineIsRead(line: string)
    ensures var parts := Cut(line, '=');
            if |parts| == 2 && parts[0] != "" then Gives(line, parts[0], parts[1])
            else forall k, v :: !Gives(line, k, v)
    ensures forall k, v :: Gives(line, k, v) ==> Cut(line, '=') == [k, v]
  {
    CutSplits(line);
    forall k, v | Gives(line, k, v) ensures Cut(line, '=') == [k, v] {
      CutAtFirst(k, '=', v);
    }
  }

  lemma {:induction false} CutSplits(line: string)
    ensures var parts := Cut(line, '=');
            && |parts| in {1, 2} && '=' !in parts[0]
            && line == if |parts| == 1 then parts[0] else parts[0] + ['='] + parts[1]
  {
    if line != "" {
      assert line == [line[0]] + line[1..];
      if line[0] != '=' {
        CutSplits(line[1..]);
      }
    }
  }

  ghost predicate GivesKey(line: string, k: string) {
    exists v :: Gives(line, k, v)
  }

  ghost predicate GivesSome(line: string) {
    exists k :: GivesKey(line, k)
  }

  lemma GivesSomeIff(line: string)
    ensures var parts := Cut(line, '='); GivesSome(line) <==> |parts| == 2 && parts[0] != ""
  {
    LineIsRead(line);
    var parts := Cut(line, '=');
    if |parts| == 2 && parts[0] != "" {
      assert GivesKey(line, parts[0]);
    }
  }

  // The lines are read iff each of them gives some key a value.
  lemma {:induction false} UnmarshalledIff(lines: seq<string>)
    ensures Unmarshalled(lines).Some? <==> forall i :: 0 <= i < |lines| ==> GivesSome(lines[i])
  {
    if lines != [] {
      UnmarshalledIff(lines[..|lines| - 1]);
      GivesSomeIff(lines[|lines| - 1]);
    }
  }

  // Then a key has the value given last, and no key has one that no line gives.
  lemma {:induction false} LastValueCounts(lines: seq<string>, i: nat, k: string, v: string)
    requires Unmarshalled(lines).Some? && i < |lines| && Gives(lines[i], k, v)
    requires forall j :: i < j < |lines| ==> !GivesKey(lines[j], k)
    ensures k in Unmarshalled(lines).value && Unmarshalled(lines).value[k] == v
  {
    var n := |lines| - 1;
    LineIsRead(lines[n]);
    if i < n {
      LastValueCounts(lines[..n], i, k, v);
      var parts := Cut(lines[n], '=');
      assert parts[0] == k ==> GivesKey(lines[n], k);
    }
  }

  lemma {:induction false} KeysAreGiven(lines: seq<string>, k: string)
    requires Unmarshalled(lines).Some? && k in Unmarshalled(lines).value
    ensures exists i :: 0 <= i < |lines| && GivesKey(lines[i], k)
  {
    var n := |lines| - 1;
    LineIsRead(lines[n]);
    if Cut(lines[n], '=')[0] == k {
      assert GivesKey(lines[n], k);
    } else {
      KeysAreGiven(lines[..n], k);
      var i :| 0 <= i < n && GivesKey(lines[..n][i], k);
      assert GivesKey(lines[i], k);
    }
  }

  method UnmarshalTags(lines: seq<string>) returns (result: Option<TagMap>)
    ensures result == Unmarshalled(lines)
  {
    var m: TagMap := map[];
    for i := 0 to |lines|
      invariant Unmarshalled(lines[..i]) == Some(m)
    {
      assert lines[..i + 1][..i] == lines[..i];
      var parts := Cut(lines[i], '=');
      if |parts| != 2 || parts[0] == "" {
        UnmarshalFailsForGood(lines, i + 1);
        return None;
      }
      m := m[parts[0] := parts[1]];
    }
    assert lines[..|lines|] == lines;
    result := Some(m);
  }

  predicate GoodKey(k: string) {
    k != "" && '=' !in k
  }

  // Every key that is read back is good.
  lemma {:induction false} UnmarshalledKeysAreGood(lines: seq<string>)
    ensures var r := Unmarshalled(lines); r.Some? ==> forall k :: k in r.value ==> GoodKey(k)
  {
    if lines != [] {
      UnmarshalledKeysAreGood(lines[..|lines| - 1]);
      CutHead(lines[|lines| - 1], '=');
    }
  }

  function Restricted(m: TagMap, ks: seq<string>): TagMap {
    map k | k in m && k in ks :: m[k]
  }

  lemma RestrictedSnoc(m: TagMap, ks: seq<string>, k: string)
    requires k in m
    ensures Restricted(m, ks + [k]) == Restricted(m, ks)[k := m[k]]
  {}

  lemma ReadBackLine(lines: seq<string>, m: TagMap, ks: seq<string>, k: string)
    requires k in m && GoodKey(k) && Unmarshalled(lines) == Some(Restricted(m, ks))
    ensures Unmarshalled(lines + [Line(m, k)]) == Some(Restricted(m, ks + [k]))
  {
    assert (lines + [Line(m, k)])[..|lines|] == lines;
    CutAtFirst(k, '=', m[k]);
    RestrictedSnoc(m, ks, k);
  }

  lemma {:induction false} ReadBackPrefix(lines: seq<string>, m: TagMap, ks: seq<string>, n: nat)
    requires Lines(lines, m, ks) && n <= |ks| && forall k :: k in m ==> GoodKey(k)
    ensures Unmarshalled(lines[..n]) == Some(Restricted(m, ks[..n]))
  {
    if n > 0 {
      ReadBackPrefix(lines, m, ks, n - 1);
      ReadBackLine(lines[..n - 1], m, ks[..n - 1], ks[n - 1]);
      assert lines[..n] == lines[..n - 1] + [Line(m, ks[n - 1])];
      assert ks[..n] == ks[..n - 1] + [ks[n - 1]];
    }
  }

  // Tags survive the trip, in any order, iff every key is non-empty and free
  // of '='; values may contain anything.
  lemma TagsRoundTrip(lines: seq<string>, m: TagMap, ks: seq<string>)
    requires Lines(lines, m, ks)
    ensures Unmarshalled(lines) == Some(m) <==> forall k :: k in m ==> GoodKey(k)
  {
    UnmarshalledKeysAreGood(lines);
    if forall k :: k in m ==> GoodKey(k) {
      ReadBackPrefix(lines, m, ks, |ks|);
      assert lines[..|ks|] == lines && ks[..|ks|] == ks;
      assert Restricted(m, ks) == m;
    }
  }
}
