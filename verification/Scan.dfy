/** The tree walk and the per-file rules of index.js. File contents are seen through an oracle that
    says, for each rule, whether it matched and whether its severity test found the risky case. */
module Scan {
  import opened Common

  datatype Probe = Probe(risky: bool)

  datatype Content =
    | Vanished                                // lstat or read failed
    | Binary                                  // executable magic number
    | Oversized                               // large and not a text extension
    | Text(matches: map<string, Probe>)       // rules that matched and did not raise

  datatype Node =
    | File(content: Content)
    | Link(escapes: bool)
    | Dir(entries: seq<Entry>)
    | Unreadable                              // a directory that readdir refuses

  datatype Entry = Entry(name: string, node: Node)

  datatype Listed = Listed(path: seq<string>, node: Node)

  const SKIP_DIRS := { ".git", "node_modules", ".venv", "venv", "dist", "build", "__pycache__", ".next" }

  predicate Skipped(name: string) {
    name in SKIP_DIRS
  }

  // ---- what a walk lists ------------------------------------------------------------------

  /** The same leaves seen from `path` directories further up. */
  function Under(path: seq<string>, listed: seq<Listed>): seq<Listed> {
    seq(|listed|, i requires 0 <= i < |listed| => Listed(path + listed[i].path, listed[i].node))
  }

  function ListEntries(entries: seq<Entry>): seq<Listed> {
    if entries == [] then [] else ListEntry(entries[0]) + ListEntries(entries[1..])
  }

  /** A skipped name hides a file as well as a directory; a link is a leaf; readdir may refuse a directory. */
  function ListEntry(entry: Entry): seq<Listed> {
    if Skipped(entry.name) || entry.node.Unreadable? then []
    else if entry.node.Dir? then Under([entry.name], ListEntries(entry.node.entries))
    else [Listed([entry.name], entry.node)]
  }

  /** A root that is no directory lists nothing. */
  function WalkOf(root: Node): seq<Listed> {
    if root.Dir? then ListEntries(root.entries) else []
  }

  class PathList {
    var items: seq<Listed>
    constructor ()
      ensures items == []
    { items := []; }
  }

  method Walk(dir: Node, path: seq<string>, out: PathList)
    modifies out
    ensures out.items == old(out.items) + Under(path, WalkOf(dir))
    decreases dir
  {
    hide Skipped, ListEntry, Under;
    UnderNothing(path);
    if !dir.Dir? { return; }
    var entries := dir.entries;
    ghost var before, done := out.items, [];
    for i := 0 to |entries|
      invariant out.items == before + done
      invariant done + Under(path, ListEntries(entries[i..])) == Under(path, ListEntries(entries))
    {
      var e := entries[i];
      ghost var part := Under(path, ListEntry(e));
      NextEntry(entries, i, path);
      EntryPart(path, e);
      assert before + (done + part) == (before + done) + part;
      done := done + part;
      if Skipped(e.name) { continue; }
      var p := path + [e.name];
      if e.node.Link? {
        out.items := out.items + [Listed(p, e.node)];
        continue;
      }
      if e.node.Dir? || e.node.Unreadable? {
        Walk(e.node, p, out);
      } else {
        out.items := out.items + [Listed(p, e.node)];
      }
    }
    assert entries[|entries|..] == [];
  }

  lemma NextEntry(entries: seq<Entry>, i: nat, path: seq<string>)
    requires i < |entries|
    ensures Under(path, ListEntries(entries[i..])) == Under(path, ListEntry(entries[i])) + Under(path, ListEntries(entries[i + 1..]))
  {
    assert entries[i..][1..] == entries[i + 1..];
  }

  lemma UnderTwice(path: seq<string>, name: string, listed: seq<Listed>)
    ensures Under(path + [name], listed) == Under(path, Under([name], listed))
  {
    var once := Under([name], listed);
    assert forall i | 0 <= i < |listed| :: (path + [name]) + listed[i].path == path + once[i].path;
  }

  lemma UnderNothing(path: seq<string>)
    ensures Under(path, []) == []
  {}

  lemma UnderRoot(listed: seq<Listed>)
    ensures Under([], listed) == listed
  {
    assert forall i | 0 <= i < |listed| :: [] + listed[i].path == listed[i].path;
  }

  lemma EntryPart(path: seq<string>, e: Entry)
    ensures Under(path, ListEntry(e)) ==
            if Skipped(e.name) then []
            else if e.node.Dir? || e.node.Unreadable? then Under(path + [e.name], WalkOf(e.node))
            else [Listed(path + [e.name], e.node)]
  {
    UnderTwice(path, e.name, WalkOf(e.node));
  }

  // ---- an independent reading: which leaves can be reached --------------------------------

  /** The leaf that a path of names leads to, following the first entry of each name. */
  function LeafIn(entries: seq<Entry>, path: seq<string>): Option<Node>
    decreases entries
  {
    if entries == [] || path == [] then None
    else if entries[0].name != path[0] then LeafIn(entries[1..], path)
    else LeafAt(entries[0].node, path[1..])
  }

  function LeafAt(node: Node, path: seq<string>): Option<Node>
    decreases node
  {
    match node
    case Dir(entries) => LeafIn(entries, path)
    case Unreadable => None
    case _ => if path == [] then Some(node) else None
  }

  predicate Visible(path: seq<string>) {
    forall i | 0 <= i < |path| :: !Skipped(path[i])
  }

  /** No directory holds two entries of one name. */
  predicate Distinct(entries: seq<Entry>) {
    && (forall i, j | 0 <= i < j < |entries| :: entries[i].name != entries[j].name)
    && forall i | 0 <= i < |entries| :: entries[i].node.Dir? ==> Distinct(entries[i].node.entries)
  }

  /** l is a leaf that is reached without passing a skipped name. */
  predicate Reached(entries: seq<Entry>, l: Listed) {
    Visible(l.path) && LeafIn(entries, l.path) == Some(l.node)
  }

  lemma UnderMember(path: seq<string>, listed: seq<Listed>, l: Listed)
    ensures l in Under(path, listed) <==> path <= l.path && Listed(l.path[|path|..], l.node) in listed
  {
    if l in Under(path, listed) {
      var i :| 0 <= i < |listed| && Under(path, listed)[i] == l;
      assert l.path[|path|..] == listed[i].path;
    }
    if path <= l.path && Listed(l.path[|path|..], l.node) in listed {
      var i :| 0 <= i < |listed| && listed[i] == Listed(l.path[|path|..], l.node);
      assert Under(path, listed)[i].path == l.path;
    }
  }

  lemma {:induction false} EntryReached(entry: Entry, l: Listed)
    requires entry.node.Dir? ==> Distinct(entry.node.entries)
    ensures l in ListEntry(entry) <==>
            Visible(l.path) && l.path != [] && l.path[0] == entry.name && LeafAt(entry.node, l.path[1..]) == Some(l.node)
    decreases entry, 1
  {
    if l.path != [] && l.path[0] == entry.name {
      assert Visible(l.path) <==> !Skipped(entry.name) && Visible(l.path[1..]) by {
        assert forall i | 1 <= i < |l.path| :: l.path[i] == l.path[1..][i - 1];
        assert forall i | 0 <= i < |l.path[1..]| :: l.path[1..][i] == l.path[i + 1];
      }
      if l.path[1..] == [] { assert l.path == [entry.name]; }
      if entry.node.Dir? {
        EntriesReached(entry.node.entries, Listed(l.path[1..], l.node));
      }
    }
    if entry.node.Dir? {
      UnderMember([entry.name], ListEntries(entry.node.entries), l);
    }
  }

  lemma {:induction false} EntriesReached(entries: seq<Entry>, l: Listed)
    requires Distinct(entries)
    ensures l in ListEntries(entries) <==> Reached(entries, l)
    decreases entries, 0
  {
    if entries != [] {
      EntryReached(entries[0], l);
      EntriesReached(entries[1..], l);
      if l.path != [] && l.path[0] == entries[0].name {
        NoSuchName(entries[1..], l.path);
      }
    }
  }

  lemma {:induction false} NoSuchName(entries: seq<Entry>, path: seq<string>)
    requires path != [] && forall i | 0 <= i < |entries| :: entries[i].name != path[0]
    ensures LeafIn(entries, path) == None
  {
    if entries != [] { NoSuchName(entries[1..], path); }
  }

  predicate Once(listed: seq<Listed>) {
    forall i, j | 0 <= i < j < |listed| :: listed[i].path != listed[j].path
  }

  /** No leaf is listed twice. */
  lemma {:induction false} ListedOnce(entries: seq<Entry>)
    requires Distinct(entries)
    ensures Once(ListEntries(entries))
    decreases entries
  {
    if entries != [] {
      var e, rest := entries[0], entries[1..];
      if e.node.Dir? {
        ListedOnce(e.node.entries);
        UnderOnce([e.name], ListEntries(e.node.entries));
      }
      ListedOnce(rest);
      forall l, k | l in ListEntry(e) && k in ListEntries(rest)
        ensures l.path != k.path
      {
        EntryReached(e, l);
        EntriesReached(rest, k);
        if k.path == l.path { NoSuchName(rest, k.path); }
      }
    }
  }

  lemma UnderOnce(path: seq<string>, listed: seq<Listed>)
    requires Once(listed)
    ensures Once(Under(path, listed))
  {
    var u := Under(path, listed);
    forall i, j | 0 <= i < j < |u|
      ensures u[i].path != u[j].path
    {
      assert u[i].path[|path|..] == listed[i].path && u[j].path[|path|..] == listed[j].path;
    }
  }

  // ---- a tree with more entries -----------------------------------------------------------

  /** b has every entry of a, with the same leaves; directories may have gained entries. */
  predicate Grown(a: Node, b: Node) {
    if a.Dir? then
      b.Dir? && forall i | 0 <= i < |a.entries| ::
        exists j :: 0 <= j < |b.entries| && b.entries[j].name == a.entries[i].name && Grown(a.entries[i].node, b.entries[j].node)
    else if a.Unreadable? then b.Dir? || b.Unreadable?
    else a == b
  }

  lemma {:induction false} PartOfListing(entries: seq<Entry>, j: nat, l: Listed)
    requires j < |entries| && l in ListEntry(entries[j])
    ensures l in ListEntries(entries)
  {
    if j > 0 { PartOfListing(entries[1..], j - 1, l); }
  }

  lemma {:induction false} ListingHasPart(entries: seq<Entry>, l: Listed) returns (i: nat)
    requires l in ListEntries(entries)
    ensures i < |entries| && l in ListEntry(entries[i])
  {
    if l in ListEntry(entries[0]) { return 0; }
    var k := ListingHasPart(entries[1..], l);
    i := k + 1;
  }

  lemma {:induction false} GrownListsMore(a: Node, b: Node, l: Listed)
    requires Grown(a, b) && l in WalkOf(a)
    ensures l in WalkOf(b)
    decreases a
  {
    var i := ListingHasPart(a.entries, l);
    var e := a.entries[i];
    var j :| 0 <= j < |b.entries| && b.entries[j].name == e.name && Grown(e.node, b.entries[j].node);
    var f := b.entries[j];
    if e.node.Dir? {
      UnderMember([e.name], ListEntries(e.node.entries), l);
      UnderMember([e.name], ListEntries(f.node.entries), l);
      GrownListsMore(e.node, f.node, Listed(l.path[1..], l.node));
    }
    PartOfListing(b.entries, j, l);
  }
}
