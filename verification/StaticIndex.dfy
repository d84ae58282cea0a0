/** The web server's index of static files: a directory tree, flattened into one map. */
module StaticIndex {
  import opened Text
  import opened Wrappers

  /** What the server finds on its disk; anything it cannot read is `Unreadable`. */
  datatype Node = File(content: string, modified: int) | Dir(entries: seq<Named>) | Unreadable
  datatype Named = Named(name: string, node: Node)

  datatype Entry = Entry(data: string, lastModified: int)
  type Files = map<string, Entry>

  const EMPTY_ENTRY := Entry("", 0)

  datatype Response = Content(entry: Entry) | NotFound

  // ---------------------------------------------------------------- the reference: walking the tree

  function Child(entries: seq<Named>, name: string): Option<Node> {
    if entries == [] then None else if entries[0].name == name then Some(entries[0].node) else Child(entries[1..], name)
  }

  /** The file that a list of names leads to. */
  function Walk(node: Node, names: seq<string>): Option<Entry>
    decreases names
  {
    match node
    case File(content, modified) => if names == [] then Some(Entry(content, modified)) else None
    case Unreadable => None
    case Dir(entries) =>
      if names == [] then None
      else
        var child := Child(entries, names[0]);
        if child.None? then None else Walk(child.value, names[1..])
  }

  /** The file at `path` when the directory itself stands at `prefix`. */
  function FileAt(dir: Node, prefix: string, path: string): Option<Entry> {
    if dir.Dir? && prefix + "/" <= path then Walk(dir, Split(path[|prefix| + 1..], '/')) else None
  }

  predicate WellNamed(node: Node) {
    node.Dir? ==>
      && (forall i, j | 0 <= i < j < |node.entries| :: node.entries[i].name != node.entries[j].name)
      && forall i | 0 <= i < |node.entries| :: '/' !in node.entries[i].name && WellNamed(node.entries[i].node)
  }

  predicate IsReadable(node: Node) {
    match node
    case File(_, _) => true
    case Dir(entries) => forall i | 0 <= i < |entries| :: IsReadable(entries[i].node)
    case Unreadable => false
  }

  function FilesIn(entries: seq<Named>): nat {
    if entries == [] then 0
    else
      (match entries[0].node
       case File(_, _) => 1
       case Unreadable => 0
       case Dir(inner) => FilesIn(inner)) + FilesIn(entries[1..])
  }

  function Get(files: Files, path: string): Option<Entry> { if path in files then Some(files[path]) else None }

  /** The map is the tree. */
  ghost predicate Indexes(files: Files, root: Node) { forall path :: Get(files, path) == FileAt(root, "", path) }

  /** Following the names, whichever entries bear them, ends at this file. */
  predicate Holds(node: Node, names: seq<string>, entry: Entry)
    decreases names
  {
    if names == [] then node == File(entry.data, entry.lastModified)
    else node.Dir? && exists i | 0 <= i < |node.entries| ::
        node.entries[i].name == names[0] && Holds(node.entries[i].node, names[1..], entry)
  }

  predicate AreNames(names: seq<string>) { names != [] && forall i | 0 <= i < |names| :: '/' !in names[i] }

  /** The map holds the files of the tree, each at its names joined by slashes, and nothing else. */
  ghost predicate HoldsTree(files: Files, root: Node) {
    && (forall names, entry | AreNames(names) ::
          Get(files, "/" + Join(names, '/')) == Some(entry) <==> Holds(root, names, entry))
    && forall path | path in files :: exists names | AreNames(names) :: path == "/" + Join(names, '/')
  }

  /** What is no directory, with its path, in the order of the entries. */
  datatype Leaf = Leaf(path: string, node: Node)

  function Leaves(entries: seq<Named>, prefix: string): seq<Leaf>
    decreases entries
  {
    if entries == [] then []
    else
      var here := prefix + "/" + entries[0].name;
      (match entries[0].node
       case Dir(inner) => Leaves(inner, here)
       case _ => [Leaf(here, entries[0].node)]) + Leaves(entries[1..], prefix)
  }

  predicate HasPath(leaves: seq<Leaf>, path: string) { exists i | 0 <= i < |leaves| :: leaves[i].path == path }

  /** A load that stops at leaf `n`: all before it are files, and it alone could not be read. */
  predicate StopsAt(leaves: seq<Leaf>, n: nat, ok: bool) {
    && n <= |leaves| && (forall i | 0 <= i < n :: leaves[i].node.File?)
    && (ok <==> n == |leaves|) && (n < |leaves| ==> leaves[n].node.Unreadable?)
  }

  // ---------------------------------------------------------------- the loader

  /** The map and the success of a load that adds to `files`. */
  function Load(files: Files, entries: seq<Named>, prefix: string): (Files, bool)
    decreases entries
  {
    if entries == [] then (files, true)
    else
      var (next, ok) := LoadEntry(files, entries, prefix + "/" + entries[0].name);
      if ok then Load(next, entries[1..], prefix) else (next, false)
  }

  function LoadEntry(files: Files, entries: seq<Named>, path: string): (Files, bool)
    requires entries != []
    decreases entries, 0
  {
    match entries[0].node
    case Dir(inner) => Load(files, inner, path)
    case File(content, modified) => (files[path := Entry(content, modified)], true)
    case Unreadable => (files, false)
  }

  class StaticHandler {
    var files: Files

    constructor ()
      ensures files == map[]
    {
      files := map[];
    }

    method LoadDirectoryContent(dir: Node, prefix: string) returns (ok: bool)
      modifies this
      ensures (files, ok) == if dir.Dir? then Load(old(files), dir.entries, prefix) else (old(files), false)
      decreases dir
    {
      if !dir.Dir? {
        return false;
      }
      ok := true;
      var i := 0;
      while i < |dir.entries|
        invariant 0 <= i <= |dir.entries|
        invariant Load(files, dir.entries[i..], prefix) == Load(old(files), dir.entries, prefix)
      {
        var entry := dir.entries[i];
        assert dir.entries[i..][1..] == dir.entries[i + 1..];
        var entryRelativePath := prefix + "/" + entry.name;
        if entry.node.Dir? {
          ok := LoadDirectoryContent(entry.node, entryRelativePath);
          if !ok {
            return false;
          }
        } else {
          if entry.node.Unreadable? {
            return false;
          }
          files := files[entryRelativePath := Entry(entry.node.content, entry.node.modified)];
        }
        i := i + 1;
      }
      return true;
    }

    /** After an error the map keeps what was read before it. */
    method ReloadDirectoryContent(root: Node) returns (ok: bool)
      modifies this
      ensures (files, ok) == if root.Dir? then Load(map[], root.entries, "") else (map[], false)
      ensures ok <==> root.Dir? && IsReadable(root)
      ensures ok && WellNamed(root) ==>
                Indexes(files, root) && HoldsTree(files, root) && |files| == FilesIn(root.entries)
      ensures WellNamed(root) ==> forall path | path in files :: Some(files[path]) == FileAt(root, "", path)
      ensures root.Dir? ==> exists n: nat :: Adds(map[], files, Leaves(root.entries, ""), n, ok)
    {
      files := map[];
      ok := LoadDirectoryContent(root, "");
      if root.Dir? {
        LoadSucceedsIff(map[], root.entries, "");
        ghost var _ := LoadStops(map[], root.entries, "");
        if WellNamed(root) {
          IndexIsTree(root);
          if ok {
            IndexHoldsTree(files, root);
          }
        }
      }
    }

    /** The file itself, and at "/" the start page; no page for a missing icon; for any other path,
        one inside the application, the start page. */
    method Handle(path: string) returns (r: Response)
      ensures forall root | Indexes(files, root) ::
                var file := FileAt(root, "", if path == "/" then "/index.html" else path);
                var start := FileAt(root, "", "/index.html");
                && (file.Some? ==> r == Content(file.value))
                && (file.None? && "/favicon." <= path ==> r == NotFound)
                && (file.None? && !("/favicon." <= path) && start.Some? ==> r == Content(start.value))
                && (file.None? && !("/favicon." <= path) && start.None? ==> r == Content(Entry("", 0)))
    {
      assert "/favicon."[1] == 'f' && "/index.html"[1] == 'i';
      var reqPath := path;
      if reqPath == "/" {
        reqPath := "/index.html";
      }
      var entry := Get(files, reqPath);
      if entry.None? && "/favicon." <= reqPath {
        r := NotFound;
      } else {
        if entry.None? {
          entry := Get(files, "/index.html");
        }
        r := Content(if entry.Some? then entry.value else EMPTY_ENTRY);
      }
      forall root | Indexes(files, root)
        ensures Get(files, "/index.html") == FileAt(root, "", "/index.html")
        ensures Get(files, reqPath) == FileAt(root, "", reqPath)
      {
      }
    }
  }

  // ---------------------------------------------------------------- the load is the walk

  lemma {:induction false} LoadSucceedsIff(files: Files, entries: seq<Named>, prefix: string)
    ensures Load(files, entries, prefix).1 <==> IsReadable(Dir(entries))
    decreases entries
  {
    if entries != [] {
      var path := prefix + "/" + entries[0].name;
      if entries[0].node.Dir? {
        LoadSucceedsIff(files, entries[0].node.entries, path);
        assert entries[0].node == Dir(entries[0].node.entries);
      }
      LoadSucceedsIff(LoadEntry(files, entries, path).0, entries[1..], prefix);
      assert entries == [entries[0]] + entries[1..];
      assert IsReadable(Dir(entries)) <==> IsReadable(entries[0].node) && IsReadable(Dir(entries[1..]));
    }
  }

  ghost predicate Adds(before: Files, after: Files, leaves: seq<Leaf>, n: nat, ok: bool) {
    StopsAt(leaves, n, ok) && forall path :: path in after <==> path in before || HasPath(leaves[..n], path)
  }

  /** A load adds the paths of all leaves in front of the first that cannot be read. */
  lemma {:induction false} LoadStops(files: Files, entries: seq<Named>, prefix: string) returns (n: nat)
    ensures Adds(files, Load(files, entries, prefix).0, Leaves(entries, prefix), n, Load(files, entries, prefix).1)
    decreases entries
  {
    if entries == [] {
      n := 0;
    } else {
      var node, here := entries[0].node, prefix + "/" + entries[0].name;
      var (next, ok) := LoadEntry(files, entries, here);
      var first := if node.Dir? then Leaves(node.entries, here) else [Leaf(here, node)];
      if node.Dir? {
        n := LoadStops(files, node.entries, here);
      } else {
        n := if ok then 1 else 0;
        OneLeaf(files, here, node);
      }
      var rest := Leaves(entries[1..], prefix);
      if ok {
        var m := LoadStops(next, entries[1..], prefix);
        AddsBoth(files, next, Load(next, entries[1..], prefix).0, first, rest, m, Load(next, entries[1..], prefix).1);
        n := |first| + m;
      } else {
        AddsFirst(files, next, first, rest, n);
      }
    }
  }

  lemma OneLeaf(files: Files, path: string, node: Node)
    requires !node.Dir?
    ensures node.File? ==> Adds(files, files[path := Entry(node.content, node.modified)], [Leaf(path, node)], 1, true)
    ensures node.Unreadable? ==> Adds(files, files, [Leaf(path, node)], 0, false)
  {
    assert [Leaf(path, node)][..1] == [Leaf(path, node)] && [Leaf(path, node)][0].path == path;
  }

  lemma AddsFirst(before: Files, after: Files, first: seq<Leaf>, rest: seq<Leaf>, n: nat)
    requires Adds(before, after, first, n, false)
    ensures Adds(before, after, first + rest, n, false)
  {
    assert (first + rest)[..n] == first[..n];
  }

  lemma AddsBoth(before: Files, next: Files, after: Files, first: seq<Leaf>, rest: seq<Leaf>, m: nat, ok: bool)
    requires Adds(before, next, first, |first|, true) && Adds(next, after, rest, m, ok)
    ensures Adds(before, after, first + rest, |first| + m, ok)
  {
    var both := (first + rest)[..|first| + m];
    assert both == first + rest[..m] && first[..|first|] == first;
    forall path ensures HasPath(both, path) <==> HasPath(first, path) || HasPath(rest[..m], path) {
      PathsOfBoth(first, rest[..m], path);
    }
  }

  lemma PathsOfBoth(a: seq<Leaf>, b: seq<Leaf>, path: string)
    ensures HasPath(a + b, path) <==> HasPath(a, path) || HasPath(b, path)
  {
    if HasPath(a, path) {
      var i :| 0 <= i < |a| && a[i].path == path;
      assert (a + b)[i].path == path;
    }
    if HasPath(b, path) {
      var i :| 0 <= i < |b| && b[i].path == path;
      assert (a + b)[|a| + i].path == path;
    }
  }

  function Or(a: Option<Entry>, b: Option<Entry>): Option<Entry> { if a.Some? then a else b }

  lemma WellNamedRest(entries: seq<Named>)
    requires entries != [] && WellNamed(Dir(entries))
    ensures WellNamed(entries[0].node) && WellNamed(Dir(entries[1..])) && '/' !in entries[0].name
    ensures Child(entries[1..], entries[0].name).None?
  {
    var rest := entries[1..];
    assert forall i | 0 <= i < |rest| :: rest[i] == entries[i + 1];
    ChildIsThere(rest, entries[0].name);
  }

  lemma {:induction false} ChildIsThere(entries: seq<Named>, name: string)
    ensures Child(entries, name).Some? ==> exists i :: 0 <= i < |entries| && entries[i].name == name
  {
    if entries != [] && entries[0].name != name {
      ChildIsThere(entries[1..], name);
      if Child(entries[1..], name).Some? {
        var i :| 0 <= i < |entries[1..]| && entries[1..][i].name == name;
        assert entries[i + 1].name == name;
      }
    }
  }

  /** Splitting off the first name of a path. */
  lemma FirstStep(name: string, rest: string, tail: string)
    requires '/' !in name
    ensures rest == name <==> Split(rest, '/') == [name]
    ensures rest == name + "/" + tail ==> Split(rest, '/') == [name] + Split(tail, '/')
    ensures var names := Split(rest, '/');
            names[0] == name && |names| > 1 ==>
                rest == name + "/" + Join(names[1..], '/') && Split(Join(names[1..], '/'), '/') == names[1..]
  {
    var names := Split(rest, '/');
    JoinSplit(rest, '/');
    SplitJoin([name], '/');
    if rest == name + "/" + tail {
      assert rest == name + ("/" + tail);
      SplitPrepends(name, "/" + tail, '/');
      assert ("/" + tail)[1..] == tail;
      assert name + "" == name;
    }
    if names[0] == name && |names| > 1 {
      SplitPartsAreFree(rest, '/');
      SplitJoin(names[1..], '/');
    }
  }

  /** The file at a path, if it is the first entry or below it. */
  function FileAtFirst(entries: seq<Named>, prefix: string, path: string): Option<Entry>
    requires entries != []
  {
    var here := prefix + "/" + entries[0].name;
    if entries[0].node.File? then (if path == here then Walk(entries[0].node, []) else None)
    else FileAt(entries[0].node, here, path)
  }

  lemma WalkSplits(entries: seq<Named>, names: seq<string>)
    requires entries != [] && names != [] && Child(entries[1..], entries[0].name).None?
    ensures names[0] == entries[0].name ==>
              Walk(Dir(entries), names) == Walk(entries[0].node, names[1..]) && Walk(Dir(entries[1..]), names).None?
    ensures names[0] != entries[0].name ==> Walk(Dir(entries), names) == Walk(Dir(entries[1..]), names)
  {
  }

  function FirstAt(first: Named, tail: string): Option<Entry> {
    if first.node.File? then (if tail == first.name then Walk(first.node, []) else None)
    else if first.node.Dir? && first.name + "/" <= tail then Walk(first.node, Split(tail[|first.name| + 1..], '/'))
    else None
  }

  lemma TailSplits(entries: seq<Named>, tail: string)
    requires entries != [] && WellNamed(Dir(entries))
    ensures var names := Split(tail, '/');
            && Walk(Dir(entries), names) == Or(Walk(Dir(entries[1..]), names), FirstAt(entries[0], tail))
            && (Walk(Dir(entries[1..]), names).None? || FirstAt(entries[0], tail).None?)
  {
    var names, name := Split(tail, '/'), entries[0].name;
    WellNamedRest(entries);
    WalkSplits(entries, names);
    FirstStep(name, tail, if name + "/" <= tail then tail[|name| + 1..] else "");
    if name + "/" <= tail {
      assert tail == name + "/" + tail[|name| + 1..];
      assert names[1..] == Split(tail[|name| + 1..], '/');
    } else if names[0] == name {
      assert names == [name] && names[1..] == [];
    }
  }

  /** The file at a path is in the first entry or in the others, never in both. */
  lemma FileAtSplits(entries: seq<Named>, prefix: string, path: string)
    requires entries != [] && WellNamed(Dir(entries))
    ensures FileAt(Dir(entries), prefix, path)
        == Or(FileAt(Dir(entries[1..]), prefix, path), FileAtFirst(entries, prefix, path))
    ensures FileAt(Dir(entries[1..]), prefix, path).None? || FileAtFirst(entries, prefix, path).None?
  {
    var name := entries[0].name;
    var here := prefix + "/" + name;
    if prefix + "/" <= path {
      var tail := path[|prefix| + 1..];
      TailSplits(entries, tail);
      assert path == prefix + "/" + tail;
      assert path == here <==> tail == name;
      assert here + "/" <= path <==> name + "/" <= tail by { PrefixOfTail(prefix + "/", name + "/", tail, here + "/"); }
      if here + "/" <= path {
        assert path[|here| + 1..] == tail[|name| + 1..];
      }
    }
  }

  lemma PrefixOfTail(p: string, q: string, tail: string, pq: string)
    requires pq == p + q
    ensures pq <= p + tail <==> q <= tail
  {
    if pq <= p + tail {
      assert q == pq[|p|..] && tail == (p + tail)[|p|..];
    }
  }

  /** One path after a load: what was loaded last, or what was there before; after an error
      either of them. */
  lemma {:induction false} LoadFinds(files: Files, entries: seq<Named>, prefix: string, path: string)
    requires WellNamed(Dir(entries))
    ensures var (after, ok) := Load(files, entries, prefix);
            && (ok ==> Get(after, path) == Or(FileAt(Dir(entries), prefix, path), Get(files, path)))
            && (Get(after, path) == Or(FileAt(Dir(entries), prefix, path), Get(files, path))
                || Get(after, path) == Get(files, path))
    decreases entries
  {
    if entries != [] {
      var here := prefix + "/" + entries[0].name;
      WellNamedRest(entries);
      FileAtSplits(entries, prefix, path);
      var next := LoadEntry(files, entries, here).0;
      if entries[0].node.Dir? {
        LoadFinds(files, entries[0].node.entries, here, path);
      }
      LoadFinds(next, entries[1..], prefix, path);
    }
  }

  /** No entry overwrites another. */
  lemma {:induction false} LoadCounts(files: Files, entries: seq<Named>, prefix: string)
    requires WellNamed(Dir(entries)) && Load(files, entries, prefix).1
    requires forall path | path in files :: FileAt(Dir(entries), prefix, path).None?
    ensures |Load(files, entries, prefix).0| == |files| + FilesIn(entries)
    decreases entries
  {
    if entries != [] {
      var first, rest := entries[0].node, entries[1..];
      var here := prefix + "/" + entries[0].name;
      WellNamedRest(entries);
      var next := LoadEntry(files, entries, here).0;
      forall path | path in files ensures FileAtFirst(entries, prefix, path).None? {
        FileAtSplits(entries, prefix, path);
      }
      if first.Dir? {
        assert first == Dir(first.entries);
        LoadCounts(files, first.entries, here);
      }
      forall path | path in next ensures FileAt(Dir(rest), prefix, path).None? {
        FileAtSplits(entries, prefix, path);
        if first.Dir? {
          LoadFinds(files, first.entries, here, path);
        }
      }
      LoadCounts(next, rest, prefix);
    }
  }

  lemma {:induction false} ChildHolds(entries: seq<Named>, name: string)
    requires forall i, j | 0 <= i < j < |entries| :: entries[i].name != entries[j].name
    ensures forall i | 0 <= i < |entries| && entries[i].name == name :: Child(entries, name) == Some(entries[i].node)
    ensures Child(entries, name).None? <==> forall i | 0 <= i < |entries| :: entries[i].name != name
  {
    if entries != [] {
      ChildHolds(entries[1..], name);
      assert forall i | 0 < i < |entries| :: entries[i] == entries[1..][i - 1];
    }
  }

  /** Walking by first matches finds the file to which the names lead. */
  lemma {:induction false} WalkIff(node: Node, names: seq<string>, entry: Entry)
    requires WellNamed(node)
    ensures Walk(node, names) == Some(entry) <==> Holds(node, names, entry)
    decreases names
  {
    if names != [] && node.Dir? {
      ChildHolds(node.entries, names[0]);
      forall i | 0 <= i < |node.entries|
        ensures Walk(node.entries[i].node, names[1..]) == Some(entry)
            <==> Holds(node.entries[i].node, names[1..], entry)
      {
        WalkIff(node.entries[i].node, names[1..], entry);
      }
    }
  }

  lemma PathOfNames(root: Node, names: seq<string>)
    requires root.Dir? && AreNames(names)
    ensures FileAt(root, "", "/" + Join(names, '/')) == Walk(root, names)
  {
    var path := "/" + Join(names, '/');
    assert "" + "/" == "/" && path[1..] == Join(names, '/');
    SplitJoin(names, '/');
  }

  lemma IndexHoldsTree(files: Files, root: Node)
    requires root.Dir? && WellNamed(root) && Indexes(files, root)
    ensures HoldsTree(files, root)
  {
    forall names, entry | AreNames(names)
      ensures Get(files, "/" + Join(names, '/')) == Some(entry) <==> Holds(root, names, entry)
    {
      PathOfNames(root, names);
      WalkIff(root, names, entry);
    }
    forall path | path in files ensures exists names | AreNames(names) :: path == "/" + Join(names, '/') {
      assert Get(files, path) == FileAt(root, "", path);
      var names := Split(path[1..], '/');
      SplitPartsAreFree(path[1..], '/');
      JoinSplit(path[1..], '/');
      assert AreNames(names) && path == "/" + path[1..];
    }
  }

  /** A load into the empty map. */
  lemma IndexIsTree(root: Node)
    requires root.Dir? && WellNamed(root)
    ensures var (after, ok) := Load(map[], root.entries, "");
            && (ok ==> Indexes(after, root) && |after| == FilesIn(root.entries))
            && forall path | path in after :: Some(after[path]) == FileAt(root, "", path)
  {
    assert root == Dir(root.entries);
    var (after, ok) := Load(map[], root.entries, "");
    forall path
      ensures Get(after, path) == FileAt(root, "", path) || (!ok && Get(after, path) == None)
    {
      LoadFinds(map[], root.entries, "", path);
    }
    if ok {
      LoadCounts(map[], root.entries, "");
    }
    forall path | path in after ensures Some(after[path]) == FileAt(root, "", path) {
      assert Get(after, path) == Some(after[path]);
    }
  }
}
