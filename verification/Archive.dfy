/** verify_archive, safe_members and the extraction loop of bootstrap_runtime.py. */
module Archive {
  import opened Paths

  datatype Kind = Regular | Directory | SymLink | HardLink | Device | OtherKind
  datatype Member = Member(name: string, kind: Kind, size: nat, sha256: string)
  datatype Row = Row(bytes: nat, sha256: string)

  // ---- pathlib ----------------------------------------------------------------------------

  /** PurePosixPath drops empty and "." components. */
  function Kept(parts: seq<string>): seq<string> {
    if parts == [] then []
    else (if parts[0] == "" || parts[0] == "." then [] else [parts[0]]) + Kept(parts[1..])
  }

  function Parts(name: string): seq<string> {
    Kept(Split(name))
  }

  predicate Absolute(name: string) {
    name != "" && name[0] == '/'
  }

  predicate Component(c: string) {
    c != "" && c != "." && '/' !in c
  }

  lemma {:induction false} KeptComponents(parts: seq<string>)
    requires forall i | 0 <= i < |parts| :: '/' !in parts[i]
    ensures forall i | 0 <= i < |Kept(parts)| :: Component(Kept(parts)[i]) && Kept(parts)[i] in parts
  {
    if parts != [] { KeptComponents(parts[1..]); }
  }

  // ---- verification -----------------------------------------------------------------------

  predicate Safe(m: Member) {
    !Absolute(m.name) && ".." !in Parts(m.name) && !m.kind.SymLink? && !m.kind.HardLink? && !m.kind.Device?
  }

  lemma {:induction false} KeptMember(parts: seq<string>, c: string)
    ensures c in Kept(parts) <==> c in parts && c != "" && c != "."
  {
    if parts != [] { KeptMember(parts[1..], c); }
  }

  lemma {:induction false} KeptConcat(a: seq<string>, b: seq<string>)
    ensures Kept(a + b) == Kept(a) + Kept(b)
  {
    if a == [] {
      assert a + b == b;
    } else {
      assert (a + b)[1..] == a[1..] + b;
      KeptConcat(a[1..], b);
    }
  }

  /** The empty and "." components fall away, every other one stays, and the order is kept. */
  lemma {:induction false} KeptAt(a: seq<string>, c: string, b: seq<string>)
    ensures Kept(a + [c] + b) == if c == "" || c == "." then Kept(a + b) else Kept(a) + [c] + Kept(b)
  {
    KeptConcat(a + [c], b);
    KeptConcat(a, [c]);
    KeptConcat(a, b);
    assert [c][1..] == [];
    assert Kept(a) + [] == Kept(a);
  }

  lemma PartsOfJoined(parts: seq<string>)
    requires parts != [] && SlashFree(parts)
    ensures Parts(JoinPath(parts)) == Kept(parts)
  {
    JoinThenSplit(parts);
  }

  /** A member is safe exactly when its name does not begin with a slash and has no component "..", and it is no link or
      device. */
  lemma SafeMeans(m: Member, parts: seq<string>)
    requires parts != [] && SlashFree(parts) && m.name == JoinPath(parts)
    ensures Safe(m) <==> (m.name == "" || m.name[0] != '/') && ".." !in parts && m.kind in {Regular, Directory, OtherKind}
  {
    hide Split, JoinPath, SlashFree, Kept;
    JoinThenSplit(parts);
    KeptMember(parts, "..");
    KindCases(m.kind);
  }

  lemma KindCases(k: Kind)
    ensures k in {Regular, Directory, SymLink, HardLink, Device, OtherKind}
  {}

  /** Every member is safe, and the regular ones correspond one to one to the expected rows. */
  predicate Exact(members: seq<Member>, expected: map<string, Row>) {
    && (forall i | 0 <= i < |members| :: Safe(members[i]))
    && (forall i, j | 0 <= i < j < |members| && members[i].kind.Regular? && members[j].kind.Regular? :: members[i].name != members[j].name)
    && (forall i | 0 <= i < |members| && members[i].kind.Regular? :: Matches(members[i], expected))
    && (forall name | name in expected :: HasFile(members, name))
  }

  predicate Matches(m: Member, expected: map<string, Row>) {
    m.name in expected && expected[m.name] == Row(m.size, m.sha256)
  }

  predicate HasFile(members: seq<Member>, name: string) {
    exists i :: 0 <= i < |members| && members[i].kind.Regular? && members[i].name == name
  }

  /** What the loop knows after a prefix of the members. */
  predicate Scanned(members: seq<Member>, expected: map<string, Row>, actual: map<string, Row>) {
    && (forall i | 0 <= i < |members| :: Safe(members[i]))
    && (forall i, j | 0 <= i < j < |members| && members[i].kind.Regular? && members[j].kind.Regular? :: members[i].name != members[j].name)
    && (forall i | 0 <= i < |members| && members[i].kind.Regular? :: Matches(members[i], actual) && members[i].name in expected)
    && (forall name | name in actual :: HasFile(members, name))
  }

  /** ok is false where the source raises. */
  method VerifyArchive(members: seq<Member>, expected: map<string, Row>) returns (ok: bool)
    ensures ok <==> Exact(members, expected)
  {
    hide Scanned, Exact, Safe;
    var actual: map<string, Row> := map[];
    NothingScanned(expected);
    for n := 0 to |members|
      invariant Scanned(members[..n], expected, actual)
    {
      var member := members[n];
      assert members[..n + 1] == members[..n] + [member];
      // safe_members
      if (member.name != "" && member.name[0] == '/') || ".." in Parts(member.name)
         || member.kind.SymLink? || member.kind.HardLink? || member.kind.Device? {
        assert !Safe(member) by { hide Parts; UnsafeMember(member); }
        NotExact(members, expected, n);
        return false;
      }
      assert Safe(member) by { hide Parts; UnsafeMember(member); }
      ScanStep(members[..n], member, expected, actual);
      if member.kind.Regular? {
        if member.name in actual {
          DuplicateNotExact(members, expected, n, actual);
          return false;
        }
        if member.name !in expected || member.size != expected[member.name].bytes {
          NotExact(members, expected, n);
          return false;
        }
        actual := actual[member.name := Row(member.size, member.sha256)];
      }
    }
    assert members[..|members|] == members;
    ScanDecides(members, expected, actual);
    return actual == expected;
  }

  lemma UnsafeMember(m: Member)
    ensures Safe(m) <==> !((m.name != "" && m.name[0] == '/') || ".." in Parts(m.name)
                           || m.kind.SymLink? || m.kind.HardLink? || m.kind.Device?)
  {}

  lemma NothingScanned(expected: map<string, Row>)
    ensures Scanned([], expected, map[])
  {}

  lemma NotExact(members: seq<Member>, expected: map<string, Row>, n: nat)
    requires n < |members|
    ensures !Safe(members[n]) || (members[n].kind.Regular? && !Matches(members[n], expected)) ==> !Exact(members, expected)
  {
    hide Safe;
  }

  lemma DuplicateNotExact(members: seq<Member>, expected: map<string, Row>, n: nat, actual: map<string, Row>)
    requires n < |members| && Scanned(members[..n], expected, actual)
    requires members[n].kind.Regular? && members[n].name in actual
    ensures !Exact(members, expected)
  {
    hide Safe;
    assert HasFile(members[..n], members[n].name);
    var i :| 0 <= i < n && members[..n][i].kind.Regular? && members[..n][i].name == members[n].name;
    assert members[i] == members[..n][i];
  }

  lemma ScanStep(before: seq<Member>, m: Member, expected: map<string, Row>, actual: map<string, Row>)
    requires Scanned(before, expected, actual) && Safe(m)
    ensures !m.kind.Regular? ==> Scanned(before + [m], expected, actual)
    ensures m.kind.Regular? && m.name !in actual && m.name in expected ==>
              Scanned(before + [m], expected, actual[m.name := Row(m.size, m.sha256)])
  {
    hide Safe;
    var after := before + [m];
    forall name | HasFile(before, name)
      ensures HasFile(after, name)
    {
      var i :| 0 <= i < |before| && before[i].kind.Regular? && before[i].name == name;
      assert after[i] == before[i];
    }
    assert after[|before|] == m;
    if m.kind.Regular? { assert HasFile(after, m.name); }
  }

  lemma ScanDecides(members: seq<Member>, expected: map<string, Row>, actual: map<string, Row>)
    requires Scanned(members, expected, actual)
    ensures actual == expected <==> Exact(members, expected)
  {
    hide Safe;
    if Exact(members, expected) {
      forall name | name in expected
        ensures name in actual && actual[name] == expected[name]
      {
        assert HasFile(members, name);
        var i :| 0 <= i < |members| && members[i].kind.Regular? && members[i].name == name;
        assert Matches(members[i], expected) && Matches(members[i], actual);
      }
      forall name | name in actual
        ensures name in expected
      {
        assert HasFile(members, name);
      }
    }
  }

  // ---- extraction -------------------------------------------------------------------------

  predicate Extracted(m: Member, component: string) {
    m.kind.Regular? && 3 <= |Parts(m.name)| && Parts(m.name)[1] == component && "tests" !in Parts(m.name)
  }

  /** What a path means once ".." components are followed. */
  function Resolve(path: seq<string>): seq<string> {
    if path == [] then []
    else
      var front, last := Resolve(path[..|path| - 1]), path[|path| - 1];
      if last == ".." then (if front == [] then [] else front[..|front| - 1]) else front + [last]
  }

  predicate Normal(path: seq<string>) {
    forall i | 0 <= i < |path| :: Component(path[i]) && path[i] != ".."
  }

  lemma {:induction false} NormalResolves(path: seq<string>)
    requires Normal(path)
    ensures Resolve(path) == path
  {
    if path != [] {
      NormalResolves(path[..|path| - 1]);
      assert path == path[..|path| - 1] + [path[|path| - 1]];
    }
  }

  predicate Lands(m: Member, component: string, dest: seq<string>, path: seq<string>) {
    Extracted(m, component) && path == dest + Parts(m.name)[2..]
  }

  method Extract(members: seq<Member>, component: string, dest: seq<string>) returns (written: seq<seq<string>>)
    requires Normal(dest) && forall i | 0 <= i < |members| :: Safe(members[i])
    ensures forall k | 0 <= k < |written| ::
              Below(dest, Resolve(written[k])) && exists i :: 0 <= i < |members| && Lands(members[i], component, dest, written[k])
    ensures forall i | 0 <= i < |members| && Extracted(members[i], component) :: dest + Parts(members[i].name)[2..] in written
  {
    hide Parts, Resolve, Safe, Normal, Below;
    written := [];
    for n := 0 to |members|
      invariant forall k | 0 <= k < |written| ::
                  Below(dest, Resolve(written[k])) && exists i :: 0 <= i < n && Lands(members[i], component, dest, written[k])
      invariant forall i | 0 <= i < n && Extracted(members[i], component) :: dest + Parts(members[i].name)[2..] in written
    {
      var member := members[n];
      var parts := Parts(member.name);
      if !member.kind.Regular? || |parts| < 3 || parts[1] != component || "tests" in parts { continue; }
      TargetBelow(member, component, dest);
      assert Lands(member, component, dest, dest + parts[2..]);
      written := written + [dest + parts[2..]];
    }
  }

  predicate Below(dest: seq<string>, path: seq<string>) {
    dest < path
  }

  /** The file of a safe member lands strictly below its component directory. */
  lemma TargetBelow(m: Member, component: string, dest: seq<string>)
    requires Safe(m) && Extracted(m, component) && Normal(dest)
    ensures Normal(dest + Parts(m.name)[2..])
    ensures Below(dest, Resolve(dest + Parts(m.name)[2..]))
  {
    var parts := Parts(m.name);
    SplitThenJoin(m.name);
    KeptComponents(Split(m.name));
    assert forall i | 0 <= i < |parts[2..]| :: parts[2..][i] == parts[i + 2] && parts[i + 2] in parts;
    NormalResolves(dest + parts[2..]);
  }

  /** Without the check on ".." the same loop would leave the directory. */
  lemma DotDotEscapes(dest: seq<string>)
    requires Normal(dest) && dest != []
    ensures !Below(dest, Resolve(dest + ["..", "x"]))
  {
    NormalResolves(dest);
    var up := dest + [".."];
    assert up[..|up| - 1] == dest;
    var out := dest + ["..", "x"];
    assert out[..|out| - 1] == up;
    assert Resolve(up) == dest[..|dest| - 1];
    assert Resolve(out) == dest[..|dest| - 1] + ["x"];
  }
}
