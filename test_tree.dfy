/** The tree of test cases shown by the test editor: every directory of
    the test directory, and every `.ns` file as a test case named without
    its extension, directories first, each group sorted by name.

    A directory listing (`readdirSync` with file types) is given as a
    tree of `Entry` values; `localeCompare` is an abstract order `le`
    on names. */
module TestTree {
  import opened Base

  /** An entry of a directory listing. */
  datatype Entry = DirEntry(name: string, entries: seq<Entry>) | FileEntry(name: string)

  /** A node of the test tree. */
  datatype Node =
    | DirNode(name: string, path: string, children: seq<Node>)
    | TestNode(name: string, path: string, hasCheck: bool)

  /** `a.localeCompare(b) <= 0` is taken to be a total preorder. */
  ghost predicate TotalPreorder(le: (string, string) -> bool) {
    && (forall a, b :: le(a, b) || le(b, a))
    && (forall a, b, c :: le(a, b) && le(b, c) ==> le(a, c))
  }

  // ---- sorting ---------------------------------------------------------------

  predicate SortedBy<T>(s: seq<T>, key: T -> string, le: (string, string) -> bool) {
    forall i, j :: 0 <= i < j < |s| ==> le(key(s[i]), key(s[j]))
  }

  /** Inserts `x` before the first element it does not follow. */
  function Insert<T>(x: T, ys: seq<T>, key: T -> string, le: (string, string) -> bool): (r: seq<T>)
    ensures multiset(r) == multiset(ys) + multiset{x}
    ensures forall i :: 0 <= i < |r| ==> r[i] == x || r[i] in ys
    ensures |r| == |ys| + 1
  {
    if |ys| == 0 || le(key(x), key(ys[0])) then [x] + ys
    else
      assert ys == [ys[0]] + ys[1..];
      [ys[0]] + Insert(x, ys[1..], key, le)
  }

  /** `Array.prototype.sort` with a comparator, as a function: a stable
      insertion sort. */
  function SortBy<T>(xs: seq<T>, key: T -> string, le: (string, string) -> bool): (r: seq<T>)
    ensures multiset(r) == multiset(xs)
    ensures forall i :: 0 <= i < |r| ==> r[i] in xs
    ensures |r| == |xs|
  {
    if |xs| == 0 then []
    else
      assert xs == [xs[0]] + xs[1..];
      Insert(xs[0], SortBy(xs[1..], key, le), key, le)
  }

  lemma {:induction false} InsertSorted<T>(x: T, ys: seq<T>, key: T -> string, le: (string, string) -> bool)
    requires TotalPreorder(le) && SortedBy(ys, key, le)
    ensures SortedBy(Insert(x, ys, key, le), key, le)
  {
    if |ys| == 0 || le(key(x), key(ys[0])) {
      var r := [x] + ys;
      forall i, j | 0 <= i < j < |r|
        ensures le(key(r[i]), key(r[j]))
      {
        if i == 0 && j > 1 {
          assert le(key(ys[0]), key(ys[j - 1]));
        }
      }
    } else {
      var rest := Insert(x, ys[1..], key, le);
      InsertSorted(x, ys[1..], key, le);
      var r := [ys[0]] + rest;
      forall j | 0 <= j < |rest|
        ensures le(key(ys[0]), key(rest[j]))
      {
        if rest[j] != x {
          var k :| 0 <= k < |ys[1..]| && ys[1..][k] == rest[j];
          assert ys[k + 1] == rest[j];
        }
      }
      forall i, j | 0 <= i < j < |r|
        ensures le(key(r[i]), key(r[j]))
      {
        if i > 0 {
          assert r[i] == rest[i - 1] && r[j] == rest[j - 1];
        } else {
          assert r[j] == rest[j - 1];
        }
      }
    }
  }

  /** The sort orders its input by `le`, and keeps every element (the
      multiset of `SortBy`'s contract). */
  lemma {:induction false} SortBySorted<T>(xs: seq<T>, key: T -> string, le: (string, string) -> bool)
    requires TotalPreorder(le)
    ensures SortedBy(SortBy(xs, key, le), key, le)
  {
    if |xs| > 0 {
      SortBySorted(xs[1..], key, le);
      InsertSorted(xs[0], SortBy(xs[1..], key, le), key, le);
    }
  }

  // ---- the listing, partitioned ------------------------------------------------

  /** A `.ns` file of a listing: its name, and its name without `.ns`. */
  datatype NsFile = NsFile(name: string, baseName: string)

  function EntryName(e: Entry): string {
    e.name
  }

  function BaseNameOf(f: NsFile): string {
    f.baseName
  }

  predicate IsNsFile(e: Entry) {
    e.FileEntry? && EndsWith(e.name, ".ns")
  }

  /** The directories of a listing, in listing order. */
  function Dirs(entries: seq<Entry>): (r: seq<Entry>)
    ensures forall d :: d in r ==> d in entries && d.DirEntry?
    ensures forall e :: e in entries && e.DirEntry? ==> e in r
  {
    if |entries| == 0 then []
    else
      var last := entries[|entries| - 1];
      var init := entries[..|entries| - 1];
      assert entries == init + [last];
      Dirs(init) + if last.DirEntry? then [last] else []
  }

  /** The `.ns` files of a listing, in listing order, each with its
      3-character suffix stripped. */
  function NsFiles(entries: seq<Entry>): (r: seq<NsFile>)
    ensures forall f :: f in r ==> FileEntry(f.name) in entries && f.name == f.baseName + ".ns"
    ensures forall e :: e in entries && IsNsFile(e) ==> NsFile(e.name, e.name[..|e.name| - 3]) in r
  {
    if |entries| == 0 then []
    else
      var last := entries[|entries| - 1];
      var init := entries[..|entries| - 1];
      assert entries == init + [last];
      NsFiles(init) + if IsNsFile(last) then [NsFile(last.name, last.name[..|last.name| - 3])] else []
  }

  /** `existsSync` on a name of the listed directory: a file or a
      directory of that name is there. */
  predicate HasEntry(entries: seq<Entry>, name: string) {
    exists k :: 0 <= k < |entries| && entries[k].name == name
  }

  /** The path of a child: the parent's path joined by `/`, or the bare
      name at the top. */
  function ChildPath(rel: string, name: string): (r: string)
    ensures rel == "" ==> r == name
    ensures rel != "" ==> r == rel + "/" + name
  {
    if rel == "" then name else rel + "/" + name
  }

  /** The segments of a child's path are those of its parent's path
      followed by its name, and a top-level name is the only segment of
      its own path. */
  lemma ChildPathSegments(rel: string, name: string)
    requires '/' !in name
    ensures rel != "" ==> Split(ChildPath(rel, name), '/') == Split(rel, '/') + [name]
    ensures rel == "" ==> Split(ChildPath(rel, name), '/') == [name]
  {
    if rel == "" {
      SplitNoSep(name, '/');
    } else {
      SplitBeforePiece(rel, '/', name);
    }
  }

  // ---- the tree --------------------------------------------------------------------

  /** The tree of a listing whose path is `rel`: directory nodes, sorted,
      then test nodes, sorted. */
  function Tree(entries: seq<Entry>, rel: string, le: (string, string) -> bool): (r: seq<Node>)
    ensures |r| == |Dirs(entries)| + |NsFiles(entries)|
    decreases entries, 1
  {
    var dirs := SortBy(Dirs(entries), EntryName, le);
    DirNodes(dirs, rel, le, entries) + TestNodes(SortBy(NsFiles(entries), BaseNameOf, le), entries, rel)
  }

  function DirNode1(d: Entry, rel: string, le: (string, string) -> bool, ghost within: seq<Entry>): Node
    requires d in within && d.DirEntry?
    decreases within, 0, 0
  {
    DirNode(d.name, ChildPath(rel, d.name), Tree(d.entries, ChildPath(rel, d.name), le))
  }

  /** The nodes of directories `ds`, in order; `within` is the listing
      they come from. */
  function DirNodes(ds: seq<Entry>, rel: string, le: (string, string) -> bool, ghost within: seq<Entry>): (r: seq<Node>)
    requires forall i :: 0 <= i < |ds| ==> ds[i] in within && ds[i].DirEntry?
    ensures |r| == |ds|
    decreases within, 0, |ds|
  {
    if |ds| == 0 then []
    else DirNodes(ds[..|ds| - 1], rel, le, within) + [DirNode1(ds[|ds| - 1], rel, le, within)]
  }

  /** The nodes of `.ns` files `fs` of the listing `entries`, in order. */
  function TestNodes(fs: seq<NsFile>, entries: seq<Entry>, rel: string): (r: seq<Node>)
    ensures |r| == |fs|
    ensures forall i :: 0 <= i < |fs| ==>
      r[i] == TestNode(fs[i].baseName, ChildPath(rel, fs[i].baseName), HasEntry(entries, fs[i].baseName + ".check.json"))
  {
    if |fs| == 0 then []
    else
      var f := fs[|fs| - 1];
      TestNodes(fs[..|fs| - 1], entries, rel) + [TestNode(f.baseName, ChildPath(rel, f.baseName), HasEntry(entries, f.baseName + ".check.json"))]
  }

  lemma {:induction false} DirNodesAt(ds: seq<Entry>, rel: string, le: (string, string) -> bool, within: seq<Entry>, i: nat)
    requires forall i :: 0 <= i < |ds| ==> ds[i] in within && ds[i].DirEntry?
    requires i < |ds|
    ensures DirNodes(ds, rel, le, within)[i] == DirNode1(ds[i], rel, le, within)
    decreases |ds|
  {
    var front := ds[..|ds| - 1];
    var last := DirNode1(ds[|ds| - 1], rel, le, within);
    assert DirNodes(ds, rel, le, within) == DirNodes(front, rel, le, within) + [last];
    if i < |ds| - 1 {
      assert front[i] == ds[i];
      DirNodesAt(front, rel, le, within, i);
    }
  }

  /** The tree of a listing is the nodes of its sorted directories
      followed by the nodes of its sorted `.ns` files. */
  lemma TreeSplit(entries: seq<Entry>, rel: string, le: (string, string) -> bool)
      returns (ds: seq<Entry>, ns: seq<NsFile>)
    ensures ds == SortBy(Dirs(entries), EntryName, le) && ns == SortBy(NsFiles(entries), BaseNameOf, le)
    ensures forall i :: 0 <= i < |ds| ==> ds[i] in entries && ds[i].DirEntry?
    ensures Tree(entries, rel, le) == DirNodes(ds, rel, le, entries) + TestNodes(ns, entries, rel)
  {
    ds := SortBy(Dirs(entries), EntryName, le);
    ns := SortBy(NsFiles(entries), BaseNameOf, le);
  }

  /** The first nodes of the tree of a listing are those of its
      directories, in sorted order. */
  lemma TreeDirPart(entries: seq<Entry>, rel: string, le: (string, string) -> bool)
      returns (ds: seq<Entry>)
    ensures ds == SortBy(Dirs(entries), EntryName, le)
    ensures |ds| <= |Tree(entries, rel, le)|
    ensures forall i :: 0 <= i < |ds| ==>
      ds[i] in entries && ds[i].DirEntry? && Tree(entries, rel, le)[i] == DirNode1(ds[i], rel, le, entries)
  {
    var ns;
    ds, ns := TreeSplit(entries, rel, le);
    var dirNodes := DirNodes(ds, rel, le, entries);
    var r := Tree(entries, rel, le);
    assert r == dirNodes + TestNodes(ns, entries, rel);
    forall i | 0 <= i < |ds|
      ensures r[i] == DirNode1(ds[i], rel, le, entries)
    {
      DirNodesAt(ds, rel, le, entries, i);
      assert r[i] == dirNodes[i];
    }
  }

  /** The remaining nodes of the tree of a listing are those of its `.ns`
      files, in sorted order. */
  lemma TreeTestPart(entries: seq<Entry>, rel: string, le: (string, string) -> bool)
      returns (ds: seq<Entry>, ns: seq<NsFile>)
    ensures ds == SortBy(Dirs(entries), EntryName, le) && ns == SortBy(NsFiles(entries), BaseNameOf, le)
    ensures |Tree(entries, rel, le)| == |ds| + |ns|
    ensures forall i :: |ds| <= i < |Tree(entries, rel, le)| ==>
      Tree(entries, rel, le)[i] == TestNode(ns[i - |ds|].baseName, ChildPath(rel, ns[i - |ds|].baseName),
                                            HasEntry(entries, ns[i - |ds|].baseName + ".check.json"))
  {
    ds, ns := TreeSplit(entries, rel, le);
    var dirNodes := DirNodes(ds, rel, le, entries);
    var testNodes := TestNodes(ns, entries, rel);
    var r := Tree(entries, rel, le);
    assert |dirNodes| == |ds|;
    assert r == dirNodes + testNodes;
    forall i | |ds| <= i < |r|
      ensures r[i] == TestNode(ns[i - |ds|].baseName, ChildPath(rel, ns[i - |ds|].baseName),
                               HasEntry(entries, ns[i - |ds|].baseName + ".check.json"))
    {
      assert r[i] == testNodes[i - |ds|];
    }
  }

  /** The tree of a listing, node by node: first the node of each
      directory in sorted order, then the node of each `.ns` file in
      sorted order. */
  lemma TreeShape(entries: seq<Entry>, rel: string, le: (string, string) -> bool)
      returns (ds: seq<Entry>, ns: seq<NsFile>)
    ensures ds == SortBy(Dirs(entries), EntryName, le) && ns == SortBy(NsFiles(entries), BaseNameOf, le)
    ensures |Tree(entries, rel, le)| == |ds| + |ns|
    ensures forall i :: 0 <= i < |ds| ==>
      ds[i] in entries && ds[i].DirEntry? && Tree(entries, rel, le)[i] == DirNode1(ds[i], rel, le, entries)
    ensures forall i :: |ds| <= i < |Tree(entries, rel, le)| ==>
      Tree(entries, rel, le)[i] == TestNode(ns[i - |ds|].baseName, ChildPath(rel, ns[i - |ds|].baseName),
                                            HasEntry(entries, ns[i - |ds|].baseName + ".check.json"))
  {
    ds := TreeDirPart(entries, rel, le);
    ds, ns := TreeTestPart(entries, rel, le);
  }

  /** Every directory node comes before every test node. */
  lemma TreeDirsFirst(entries: seq<Entry>, rel: string, le: (string, string) -> bool)
    ensures var r := Tree(entries, rel, le);
      forall i :: 0 <= i < |r| ==> (r[i].DirNode? <==> i < |Dirs(entries)|)
  {
    var ds, ns := TreeShape(entries, rel, le);
  }

  /** Within each group, nodes are in name order. */
  lemma TreeGroupsSorted(entries: seq<Entry>, rel: string, le: (string, string) -> bool)
    requires TotalPreorder(le)
    ensures var r := Tree(entries, rel, le);
      forall i, j :: 0 <= i < j < |r| && r[i].DirNode? == r[j].DirNode? ==> le(r[i].name, r[j].name)
  {
    var r := Tree(entries, rel, le);
    var ds, ns := TreeShape(entries, rel, le);
    SortBySorted(Dirs(entries), EntryName, le);
    SortBySorted(NsFiles(entries), BaseNameOf, le);
    forall i, j | 0 <= i < j < |r| && r[i].DirNode? == r[j].DirNode?
      ensures le(r[i].name, r[j].name)
    {
      if j < |ds| {
        assert r[i].name == EntryName(ds[i]) && r[j].name == EntryName(ds[j]);
      } else {
        assert r[i].name == BaseNameOf(ns[i - |ds|]) && r[j].name == BaseNameOf(ns[j - |ds|]);
      }
    }
  }

  /** Where an element of a sorted sequence sits in it. */
  lemma SortByIndexOf<T>(xs: seq<T>, key: T -> string, le: (string, string) -> bool, x: T) returns (k: nat)
    requires x in xs
    ensures k < |SortBy(xs, key, le)| && SortBy(xs, key, le)[k] == x
  {
    var r := SortBy(xs, key, le);
    assert x in multiset(xs);
    assert x in multiset(r);
    k :| 0 <= k < |r| && r[k] == x;
  }

  /** Every test node of a tree is a `.ns` file of the listing, named
      without its suffix, with its path, and with `hasCheck` set exactly
      when the listing also holds `<name>.check.json`. */
  lemma TreeTestNodesListed(entries: seq<Entry>, rel: string, le: (string, string) -> bool)
    ensures var r := Tree(entries, rel, le);
      forall i :: 0 <= i < |r| && r[i].TestNode? ==>
        && FileEntry(r[i].name + ".ns") in entries
        && r[i].path == ChildPath(rel, r[i].name)
        && (r[i].hasCheck <==> HasEntry(entries, r[i].name + ".check.json"))
  {
    var r := Tree(entries, rel, le);
    var ds, ns := TreeTestPart(entries, rel, le);
    TreeDirsFirst(entries, rel, le);
    forall i | 0 <= i < |r| && r[i].TestNode?
      ensures FileEntry(r[i].name + ".ns") in entries
    {
      assert |ds| <= i;
      assert ns[i - |ds|] in NsFiles(entries);
    }
  }

  /** Every `.ns` file of the listing has a test node in its tree. */
  lemma TreeTestNodesComplete(entries: seq<Entry>, rel: string, le: (string, string) -> bool)
    ensures var r := Tree(entries, rel, le);
      forall e :: e in entries && IsNsFile(e) ==>
        exists i :: 0 <= i < |r| && r[i].TestNode? && r[i].name + ".ns" == e.name
  {
    var r := Tree(entries, rel, le);
    var ds, ns := TreeTestPart(entries, rel, le);
    forall e | e in entries && IsNsFile(e)
      ensures exists i :: 0 <= i < |r| && r[i].TestNode? && r[i].name + ".ns" == e.name
    {
      var f := NsFile(e.name, e.name[..|e.name| - 3]);
      var k := SortByIndexOf(NsFiles(entries), BaseNameOf, le, f);
      assert e.name == f.baseName + ".ns";
      assert r[|ds| + k].name == ns[|ds| + k - |ds|].baseName;
    }
  }

  /** Every directory node of a tree is a directory of the listing, with
      its path and with the tree of its own listing as children. */
  lemma TreeDirNodesListed(entries: seq<Entry>, rel: string, le: (string, string) -> bool)
    ensures var r := Tree(entries, rel, le);
      forall i :: 0 <= i < |r| && r[i].DirNode? ==>
        exists d :: (d in entries && d.DirEntry? && d.name == r[i].name
                     && r[i].path == ChildPath(rel, d.name) && r[i].children == Tree(d.entries, r[i].path, le))
  {
    var r := Tree(entries, rel, le);
    var ds := TreeDirPart(entries, rel, le);
    TreeDirsFirst(entries, rel, le);
    forall i | 0 <= i < |r| && r[i].DirNode?
      ensures exists d :: (d in entries && d.DirEntry? && d.name == r[i].name
                           && r[i].path == ChildPath(rel, d.name) && r[i].children == Tree(d.entries, r[i].path, le))
    {
      assert i < |ds|;
      var d := ds[i];
      assert r[i] == DirNode1(d, rel, le, entries);
    }
  }

  /** Every directory of the listing has a node in its tree, whose
      children are the tree of its own listing. */
  lemma TreeDirNodesComplete(entries: seq<Entry>, rel: string, le: (string, string) -> bool)
    ensures var r := Tree(entries, rel, le);
      forall d :: d in entries && d.DirEntry? ==>
        exists i :: 0 <= i < |r| && r[i].DirNode? && r[i].name == d.name && r[i].children == Tree(d.entries, r[i].path, le)
  {
    var r := Tree(entries, rel, le);
    var ds := TreeDirPart(entries, rel, le);
    forall d | d in entries && d.DirEntry?
      ensures exists i :: 0 <= i < |r| && r[i].DirNode? && r[i].name == d.name && r[i].children == Tree(d.entries, r[i].path, le)
    {
      var k := SortByIndexOf(Dirs(entries), EntryName, le, d);
      assert r[k] == DirNode1(d, rel, le, entries);
    }
  }

  /** The first loop of `buildTree`: one pass over the listing that
      collects its directories and its `.ns` files, each `.ns` file with
      its 3-character suffix cut off. */
  method Partition(entries: seq<Entry>) returns (dirs: seq<Entry>, nsFiles: seq<NsFile>)
    ensures dirs == Dirs(entries) && nsFiles == NsFiles(entries)
  {
    dirs := [];
    nsFiles := [];
    for k := 0 to |entries|
      invariant dirs == Dirs(entries[..k]) && nsFiles == NsFiles(entries[..k])
    {
      assert entries[..k + 1][..k] == entries[..k];
      var entry := entries[k];
      if entry.DirEntry? {
        dirs := dirs + [entry];
      } else if EndsWith(entry.name, ".ns") {
        nsFiles := nsFiles + [NsFile(entry.name, entry.name[..|entry.name| - 3])];
      }
    }
    assert entries[..|entries|] == entries;
  }

  /** `buildTree`: the listing is partitioned into directories and `.ns`
      files, both groups are sorted, then the directory nodes (each built
      recursively) and the test nodes are appended. */
  method BuildTree(entries: seq<Entry>, rel: string, le: (string, string) -> bool) returns (nodes: seq<Node>)
    ensures nodes == Tree(entries, rel, le)
    decreases entries, 1
  {
    var dirs, nsFiles := Partition(entries);
    dirs := SortBy(dirs, EntryName, le);
    nsFiles := SortBy(nsFiles, BaseNameOf, le);
    ghost var ds, ns := TreeSplit(entries, rel, le);
    var dirNodes := BuildDirNodes(dirs, rel, le, entries);
    var testNodes := BuildTestNodes(nsFiles, entries, rel);
    nodes := dirNodes + testNodes;
  }

  /** The second loop of `buildTree`: the node of each directory, its
      children built by a recursive call. */
  method BuildDirNodes(dirs: seq<Entry>, rel: string, le: (string, string) -> bool, ghost entries: seq<Entry>)
      returns (nodes: seq<Node>)
    requires forall i :: 0 <= i < |dirs| ==> dirs[i] in entries && dirs[i].DirEntry?
    ensures nodes == DirNodes(dirs, rel, le, entries)
    decreases entries, 0
  {
    nodes := [];
    for j := 0 to |dirs|
      invariant nodes == DirNodes(dirs[..j], rel, le, entries)
    {
      assert dirs[..j + 1][..j] == dirs[..j];
      var dir := dirs[j];
      var dirRelativePath := ChildPath(rel, dir.name);
      var children := BuildTree(dir.entries, dirRelativePath, le);
      nodes := nodes + [DirNode(dir.name, dirRelativePath, children)];
    }
    assert dirs[..|dirs|] == dirs;
  }

  /** The third loop of `buildTree`: the node of each `.ns` file, with
      `hasCheck` looked up in the listing. */
  method BuildTestNodes(nsFiles: seq<NsFile>, entries: seq<Entry>, rel: string) returns (nodes: seq<Node>)
    ensures nodes == TestNodes(nsFiles, entries, rel)
  {
    nodes := [];
    for j := 0 to |nsFiles|
      invariant nodes == TestNodes(nsFiles[..j], entries, rel)
    {
      assert nsFiles[..j + 1][..j] == nsFiles[..j];
      var baseName := nsFiles[j].baseName;
      var hasCheck := HasEntry(entries, baseName + ".check.json");
      nodes := nodes + [TestNode(baseName, ChildPath(rel, baseName), hasCheck)];
    }
    assert nsFiles[..|nsFiles|] == nsFiles;
  }
}
