/** The category list of the test editor: the path of every directory of
    the test tree, flattened depth first. */
module Categories {
  import opened TestTree

  /** The categories under `nodes`, whose parent directory has path
      `prefix` (`""` at the root): the nodes' own contributions, in order. */
  function Categories(nodes: seq<Node>, prefix: string): seq<string>
    decreases nodes
  {
    if |nodes| == 0 then []
    else Categories(nodes[..|nodes| - 1], prefix) + NodeCategories(nodes[|nodes| - 1], prefix)
  }

  /** A directory contributes its path followed by the categories under
      it; a test case contributes nothing. */
  function NodeCategories(node: Node, prefix: string): seq<string>
    decreases node
  {
    match node
    case TestNode(_, _, _) => []
    case DirNode(name, _, children) =>
      var path := ChildPath(prefix, name);
      [path] + Categories(children, path)
  }

  /** `extractCategories`: a loop over the nodes that pushes each
      directory's path and then, recursively, the categories under it. */
  method ExtractCategories(nodes: seq<Node>, prefix: string) returns (categories: seq<string>)
    ensures categories == Categories(nodes, prefix)
    decreases nodes
  {
    categories := [];
    for i := 0 to |nodes|
      invariant categories == Categories(nodes[..i], prefix)
    {
      assert nodes[..i + 1][..i] == nodes[..i];
      var node := nodes[i];
      if node.DirNode? {
        var path := ChildPath(prefix, node.name);
        categories := categories + [path];
        var below := ExtractCategories(node.children, path);
        categories := categories + below;
      }
    }
    assert nodes[..|nodes|] == nodes;
  }

  // ---- an independent description: routes to directories -------------------------------

  /** Following the child indices of `route` from `nodes` goes through
      directories only and ends at one. */
  ghost predicate IsDirRoute(nodes: seq<Node>, route: seq<nat>)
    decreases |route|
  {
    && |route| > 0
    && route[0] < |nodes|
    && nodes[route[0]].DirNode?
    && (|route| == 1 || IsDirRoute(nodes[route[0]].children, route[1..]))
  }

  /** The path of the directory a route ends at: the names along it, each
      joined to its parent's path with `/`. */
  ghost function RoutePath(nodes: seq<Node>, route: seq<nat>, prefix: string): string
    requires IsDirRoute(nodes, route)
    decreases |route|
  {
    var path := ChildPath(prefix, nodes[route[0]].name);
    if |route| == 1 then path else RoutePath(nodes[route[0]].children, route[1..], path)
  }

  /** A route into a prefix of the nodes is a route into all of them. */
  lemma {:induction false} RouteInPrefix(nodes: seq<Node>, k: nat, route: seq<nat>, prefix: string)
    requires k <= |nodes| && IsDirRoute(nodes[..k], route)
    ensures IsDirRoute(nodes, route) && RoutePath(nodes, route, prefix) == RoutePath(nodes[..k], route, prefix)
  {
    assert nodes[..k][route[0]] == nodes[route[0]];
  }

  /** Every category is the path of a directory reached by some route. */
  lemma {:induction false} CategoryHasRoute(nodes: seq<Node>, prefix: string, c: string)
    requires c in Categories(nodes, prefix)
    ensures exists route :: IsDirRoute(nodes, route) && RoutePath(nodes, route, prefix) == c
    decreases nodes
  {
    var n := |nodes| - 1;
    var front := nodes[..n];
    if c in Categories(front, prefix) {
      CategoryHasRoute(front, prefix, c);
      var route :| IsDirRoute(front, route) && RoutePath(front, route, prefix) == c;
      RouteInPrefix(nodes, n, route, prefix);
    } else {
      assert c in NodeCategories(nodes[n], prefix);
      var path := ChildPath(prefix, nodes[n].name);
      if c == path {
        assert IsDirRoute(nodes, [n]) && RoutePath(nodes, [n], prefix) == c;
      } else {
        var children := nodes[n].children;
        CategoryHasRoute(children, path, c);
        var route :| IsDirRoute(children, route) && RoutePath(children, route, path) == c;
        assert ([n] + route)[1..] == route;
        assert IsDirRoute(nodes, [n] + route) && RoutePath(nodes, [n] + route, prefix) == c;
      }
    }
  }

  /** What one node contributes is part of the whole list. */
  lemma {:induction false} NodeCategoriesIncluded(nodes: seq<Node>, j: nat, prefix: string, c: string)
    requires j < |nodes| && c in NodeCategories(nodes[j], prefix)
    ensures c in Categories(nodes, prefix)
    decreases |nodes|
  {
    var n := |nodes| - 1;
    if j < n {
      assert nodes[..n][j] == nodes[j];
      NodeCategoriesIncluded(nodes[..n], j, prefix, c);
    }
  }

  /** Every directory reached by a route has its path listed. */
  lemma {:induction false} RouteHasCategory(nodes: seq<Node>, route: seq<nat>, prefix: string)
    requires IsDirRoute(nodes, route)
    ensures RoutePath(nodes, route, prefix) in Categories(nodes, prefix)
    decreases |route|
  {
    var node := nodes[route[0]];
    var path := ChildPath(prefix, node.name);
    if |route| > 1 {
      RouteHasCategory(node.children, route[1..], path);
    }
    NodeCategoriesIncluded(nodes, route[0], prefix, RoutePath(nodes, route, prefix));
  }

  /** The categories are exactly the paths of the directories of the
      tree, and no path that only a test case has. */
  lemma CategoriesAreDirectoryPaths(nodes: seq<Node>, prefix: string, c: string)
    ensures c in Categories(nodes, prefix) <==>
      exists route :: IsDirRoute(nodes, route) && RoutePath(nodes, route, prefix) == c
  {
    if c in Categories(nodes, prefix) {
      CategoryHasRoute(nodes, prefix, c);
    }
    if exists route :: IsDirRoute(nodes, route) && RoutePath(nodes, route, prefix) == c {
      var route :| IsDirRoute(nodes, route) && RoutePath(nodes, route, prefix) == c;
      RouteHasCategory(nodes, route, prefix);
    }
  }

  /** The number of directories in a tree. */
  function DirCount(nodes: seq<Node>): (r: nat)
    decreases nodes
  {
    if |nodes| == 0 then 0
    else
      var last := nodes[|nodes| - 1];
      DirCount(nodes[..|nodes| - 1]) + (if last.DirNode? then 1 + DirCount(last.children) else 0)
  }

  /** One entry per directory: the list has as many categories as the
      tree has directories. */
  lemma {:induction false} CategoryCount(nodes: seq<Node>, prefix: string)
    ensures |Categories(nodes, prefix)| == DirCount(nodes)
    decreases nodes
  {
    if |nodes| > 0 {
      var last := nodes[|nodes| - 1];
      CategoryCount(nodes[..|nodes| - 1], prefix);
      if last.DirNode? {
        CategoryCount(last.children, ChildPath(prefix, last.name));
      }
    }
  }

  /** The list of a concatenation is the concatenation of the lists. */
  lemma {:induction false} CategoriesConcat(a: seq<Node>, b: seq<Node>, prefix: string)
    ensures Categories(a + b, prefix) == Categories(a, prefix) + Categories(b, prefix)
    decreases |b|
  {
    if |b| > 0 {
      var n := |b| - 1;
      assert (a + b)[..|a + b| - 1] == a + b[..n];
      CategoriesConcat(a, b[..n], prefix);
    } else {
      assert a + b == a;
    }
  }

  /** Pre-order: the directory at index `j` appears right after the
      categories of the siblings before it, and is followed at once by
      the categories under it; the siblings after it come later still. */
  lemma PreOrder(nodes: seq<Node>, prefix: string, j: nat)
    requires j < |nodes| && nodes[j].DirNode?
    ensures
      var before := Categories(nodes[..j], prefix);
      var path := ChildPath(prefix, nodes[j].name);
      var below := Categories(nodes[j].children, path);
      Categories(nodes, prefix) == before + [path] + below + Categories(nodes[j + 1..], prefix)
  {
    assert nodes == nodes[..j] + [nodes[j]] + nodes[j + 1..];
    CategoriesConcat(nodes[..j] + [nodes[j]], nodes[j + 1..], prefix);
    assert (nodes[..j] + [nodes[j]])[..j] == nodes[..j];
  }
}
