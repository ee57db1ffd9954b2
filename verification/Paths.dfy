/** Slash-separated paths: splitting at the slashes, joining with them, and what escaping does to the components. */
module Paths {
  import opened Terminal

  /** The components between slashes. */
  function Split(s: string): (parts: seq<string>)
    ensures parts != []
  {
    if s == "" then [""]
    else
      var rest := Split(s[1..]);
      if s[0] == '/' then [""] + rest else [[s[0]] + rest[0]] + rest[1..]
  }

  function JoinPath(path: seq<string>): string {
    if path == [] then ""
    else if |path| == 1 then path[0]
    else path[0] + "/" + JoinPath(path[1..])
  }

  predicate SlashFree(parts: seq<string>) {
    forall i | 0 <= i < |parts| :: '/' !in parts[i]
  }

  lemma JoinHead(x: string, first: string, more: seq<string>)
    ensures JoinPath([x + first] + more) == x + JoinPath([first] + more)
  {
    var whole, part := [x + first] + more, [first] + more;
    assert whole[1..] == more && part[1..] == more;
    if more != [] {
      assert (x + first) + "/" + JoinPath(more) == x + (first + "/" + JoinPath(more));
    }
  }

  lemma JoinEmpty(more: seq<string>)
    requires more != []
    ensures JoinPath([""] + more) == "/" + JoinPath(more)
  {
    assert ([""] + more)[1..] == more;
  }

  /** The components are free of slashes, and joining them gives the text back. */
  lemma {:induction false} SplitThenJoin(s: string)
    ensures SlashFree(Split(s)) && JoinPath(Split(s)) == s
  {
    if s != "" {
      var rest := Split(s[1..]);
      SplitThenJoin(s[1..]);
      hide JoinPath;
      assert s == [s[0]] + s[1..];
      if s[0] == '/' {
        JoinEmpty(rest);
      } else {
        JoinHead([s[0]], rest[0], rest[1..]);
        assert rest == [rest[0]] + rest[1..];
      }
    }
  }

  lemma {:induction false} SplitFirst(first: string, rest: string)
    requires '/' !in first
    ensures Split(first + "/" + rest) == [first] + Split(rest)
  {
    var s := first + "/" + rest;
    if first == "" {
      assert s[1..] == rest;
    } else {
      assert s[1..] == first[1..] + "/" + rest;
      SplitFirst(first[1..], rest);
      assert first == [first[0]] + first[1..];
    }
  }

  lemma {:induction false} SplitOne(s: string)
    requires '/' !in s
    ensures Split(s) == [s]
  {
    if s != "" {
      SplitOne(s[1..]);
      assert s == [s[0]] + s[1..];
    }
  }

  /** Joining components that are free of slashes loses nothing: splitting gives them back. */
  lemma {:induction false} JoinThenSplit(parts: seq<string>)
    requires parts != [] && SlashFree(parts)
    ensures Split(JoinPath(parts)) == parts
  {
    if |parts| == 1 {
      SplitOne(parts[0]);
    } else {
      JoinThenSplit(parts[1..]);
      SplitFirst(parts[0], JoinPath(parts[1..]));
    }
  }

  // ---- escaping ---------------------------------------------------------------------------

  function EscapeEach(parts: seq<string>): seq<string> {
    seq(|parts|, i requires 0 <= i < |parts| => EscapeTerminal(parts[i]))
  }

  lemma {:induction false} EscapeSlashFree(s: string)
    requires '/' !in s
    ensures '/' !in EscapeTerminal(s)
  {
    if s != "" {
      EscapeSlashFree(s[1..]);
      EscapedSlash(s[0]);
    }
  }

  lemma EscapedSlash(c: char)
    ensures c == '/' ==> EscapeChar(c) == "/"
    ensures c != '/' ==> '/' !in EscapeChar(c)
  {}

  lemma {:induction false} EscapeJoined(parts: seq<string>)
    ensures EscapeTerminal(JoinPath(parts)) == JoinPath(EscapeEach(parts))
  {
    if |parts| > 1 {
      EscapeJoined(parts[1..]);
      assert EscapeEach(parts)[1..] == EscapeEach(parts[1..]);
      EscapeConcat(parts[0] + "/", JoinPath(parts[1..]));
      EscapeConcat(parts[0], "/");
      EscapeOne('/');
    }
  }

  /** Escaping a path escapes its components, and neither adds nor removes one. */
  lemma EscapeKeepsComponents(parts: seq<string>)
    requires parts != [] && SlashFree(parts)
    ensures Split(EscapeTerminal(JoinPath(parts))) == EscapeEach(parts)
  {
    EscapeJoined(parts);
    forall i | 0 <= i < |parts|
      ensures '/' !in EscapeEach(parts)[i]
    {
      EscapeSlashFree(parts[i]);
    }
    JoinThenSplit(EscapeEach(parts));
  }
}
