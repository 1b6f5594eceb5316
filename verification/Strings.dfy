// The parts of Go's strings package that the agent's parsers use.
module Strings {

  predicate HasPrefix(s: string, p: string) {
    |p| <= |s| && s[..|p|] == p
  }

  // strings.Split with a one-character separator.
  function Split(s: string, sep: char): (parts: seq<string>)
    ensures parts != []
    ensures forall p :: p in parts ==> sep !in p
  {
    if s == "" then [""]
    else
      var rest := Split(s[1..], sep);
      if s[0] == sep then [""] + rest else [[s[0]] + rest[0]] + rest[1..]
  }

  function Join(parts: seq<string>, sep: char): string {
    if parts == [] then ""
    else if |parts| == 1 then parts[0]
    else parts[0] + [sep] + Join(parts[1..], sep)
  }

  // strings.SplitN(s, sep, 2)
  function Cut(s: string, sep: char): seq<string> {
    if s == "" then [""]
    else if s[0] == sep then ["", s[1..]]
    else
      var rest := Cut(s[1..], sep);
      [[s[0]] + rest[0]] + rest[1..]
  }

  lemma {:induction false} CutAtFirst(p: string, sep: char, rest: string)
    requires sep !in p
    ensures Cut(p + [sep] + rest, sep) == [p, rest]
  {
    var s := p + [sep] + rest;
    if p != "" {
      CutAtFirst(p[1..], sep, rest);
      assert s[1..] == p[1..] + [sep] + rest;
      assert p == [p[0]] + p[1..];
    }
  }

  lemma {:induction false} CutWithout(s: string, sep: char)
    requires sep !in s
    ensures Cut(s, sep) == [s]
  {
    if s != "" {
      CutWithout(s[1..], sep);
      assert s == [s[0]] + s[1..];
    }
  }

  // The part before the separator never contains it.
  lemma {:induction false} CutHead(s: string, sep: char)
    ensures |Cut(s, sep)| in {1, 2} && sep !in Cut(s, sep)[0]
  {
    if s != "" && s[0] != sep {
      CutHead(s[1..], sep);
    }
  }

  lemma {:induction false} SplitHead(p: string, sep: char, rest: string)
    requires sep !in p
    ensures Split(p, sep) == [p]
    ensures Split(p + [sep] + rest, sep) == [p] + Split(rest, sep)
  {
    var s := p + [sep] + rest;
    if p == "" {
      assert s[1..] == rest;
    } else {
      SplitHead(p[1..], sep, rest);
      assert s[1..] == p[1..] + [sep] + rest;
      assert p == [p[0]] + p[1..];
    }
  }

  lemma JoinPrepends(parts: seq<string>, sep: char, c: char)
    requires parts != []
    ensures Join([[c] + parts[0]] + parts[1..], sep) == [c] + Join(parts, sep)
    ensures Join([""] + parts, sep) == [sep] + Join(parts, sep)
  {
    assert ([[c] + parts[0]] + parts[1..])[1..] == parts[1..];
    assert ([""] + parts)[1..] == parts;
  }

  lemma {:induction false} JoinSplit(s: string, sep: char)
    ensures Join(Split(s, sep), sep) == s
  {
    if s != "" {
      JoinSplit(s[1..], sep);
      JoinPrepends(Split(s[1..], sep), sep, s[0]);
      assert s == [s[0]] + s[1..];
    } else {
      assert Split(s, sep) == [""];
    }
  }

  // Joining and splitting undo each other.
  lemma {:induction false} SplitJoin(parts: seq<string>, sep: char)
    requires parts != [] && forall p :: p in parts ==> sep !in p
    ensures Split(Join(parts, sep), sep) == parts
  {
    SplitHead(parts[0], sep, Join(parts[1..], sep));
    if |parts| > 1 {
      SplitJoin(parts[1..], sep);
      assert parts == [parts[0]] + parts[1..];
    }
  }
}
