/** The directory tree the scanners walk with `filepath.Walk`, and the
    part of the walk they share: a directory whose path equals an excluded
    entry is skipped together with everything below it.

    A tree is given with full paths and with each directory's entries in
    the order the walk visits them (lexical order). Errors while reading an
    entry inside the tree are not modelled; a root that does not exist is
    (see `Lookup`). */
module FileTree {
  import opened Outcomes

  datatype Node = Dir(path: string, children: seq<Node>) | File(path: string, size: int)

  /** The filesystem below the configured roots: `fs(root)` is an error
      when the root cannot be stat'ed. */
  type Lookup = string -> Result<Node>

  /** The nodes the walk hands to its callback and does not skip, in
      visiting order. The root itself is skipped when it is excluded. */
  function Visible(n: Node, exclude: seq<string>): seq<Node>
    decreases n
  {
    match n
    case File(_, _) => [n]
    case Dir(p, cs) => if p in exclude then [] else [n] + VisibleAll(cs, exclude)
  }

  function VisibleAll(cs: seq<Node>, exclude: seq<string>): seq<Node>
    decreases cs
  {
    if |cs| == 0 then [] else Visible(cs[0], exclude) + VisibleAll(cs[1..], exclude)
  }

  /** The node reached from `n` by following child indices. */
  function NodeAt(n: Node, route: seq<nat>): Option<Node>
    decreases |route|
  {
    if |route| == 0 then Some(n)
    else match n
      case File(_, _) => None
      case Dir(_, cs) => if route[0] < |cs| then NodeAt(cs[route[0]], route[1..]) else None
  }

  /** No directory on the route, the root and the target included, is
      excluded. */
  predicate Clear(n: Node, route: seq<nat>, exclude: seq<string>)
    decreases |route|
  {
    match n
    case File(_, _) => |route| == 0
    case Dir(p, cs) =>
      p !in exclude && (|route| == 0 || (route[0] < |cs| && Clear(cs[route[0]], route[1..], exclude)))
  }

  /** A node is visited exactly when it sits at the end of a route whose
      directories are none of them excluded. */
  lemma {:induction false} VisibleIff(n: Node, exclude: seq<string>, m: Node)
    ensures m in Visible(n, exclude) <==>
      exists route :: NodeAt(n, route) == Some(m) && Clear(n, route, exclude)
    decreases n, 2
  {
    if m in Visible(n, exclude) {
      var route := VisibleHasRoute(n, exclude, m);
    }
    if exists route :: NodeAt(n, route) == Some(m) && Clear(n, route, exclude) {
      var route :| NodeAt(n, route) == Some(m) && Clear(n, route, exclude);
      RouteIsVisible(n, exclude, route);
    }
  }

  /** Every visited node has a clear route to it. */
  lemma {:induction false} VisibleHasRoute(n: Node, exclude: seq<string>, m: Node) returns (route: seq<nat>)
    requires m in Visible(n, exclude)
    ensures NodeAt(n, route) == Some(m) && Clear(n, route, exclude)
    decreases n, 1
  {
    if m == n {
      route := [];
      match n
      case File(_, _) =>
      case Dir(p, _) =>
        assert p !in exclude;
    } else {
      var cs := n.children;
      assert n.Dir? && n.path !in exclude;
      assert Visible(n, exclude) == [n] + VisibleAll(cs, exclude);
      var i, rest := VisibleAllHasRoute(cs, exclude, m);
      route := [i as nat] + rest;
      assert route[1..] == rest;
    }
  }

  lemma {:induction false} VisibleAllHasRoute(cs: seq<Node>, exclude: seq<string>, m: Node)
    returns (i: int, route: seq<nat>)
    requires m in VisibleAll(cs, exclude)
    ensures 0 <= i < |cs| && NodeAt(cs[i], route) == Some(m) && Clear(cs[i], route, exclude)
    decreases cs, 0
  {
    if m in Visible(cs[0], exclude) {
      i := 0;
      route := VisibleHasRoute(cs[0], exclude, m);
    } else {
      var j, r := VisibleAllHasRoute(cs[1..], exclude, m);
      assert cs[1..][j] == cs[j + 1];
      i, route := j + 1, r;
    }
  }

  /** Every node at the end of a clear route is visited. */
  lemma {:induction false} RouteIsVisible(n: Node, exclude: seq<string>, route: seq<nat>)
    requires NodeAt(n, route).Some? && Clear(n, route, exclude)
    ensures NodeAt(n, route).value in Visible(n, exclude)
    decreases |route|
  {
    if |route| > 0 {
      var cs := n.children;
      var i := route[0] as int;
      RouteIsVisible(cs[i], exclude, route[1..]);
      VisibleAllContains(cs, exclude, i, NodeAt(n, route).value);
      assert Visible(n, exclude) == [n] + VisibleAll(cs, exclude);
    }
  }

  /** What a child visits is part of what its siblings' list visits. */
  lemma {:induction false} VisibleAllContains(cs: seq<Node>, exclude: seq<string>, i: int, m: Node)
    requires 0 <= i < |cs| && m in Visible(cs[i], exclude)
    ensures m in VisibleAll(cs, exclude)
    decreases |cs|
  {
    if i > 0 {
      assert cs[1..][i - 1] == cs[i];
      VisibleAllContains(cs[1..], exclude, i - 1, m);
    }
  }

  /** An excluded directory is never visited. */
  lemma ExcludedNeverVisited(n: Node, exclude: seq<string>, m: Node)
    requires m.Dir? && m.path in exclude
    ensures m !in Visible(n, exclude)
  {
    VisibleIff(n, exclude, m);
    forall route | NodeAt(n, route) == Some(m) ensures !Clear(n, route, exclude) {
      if Clear(n, route, exclude) {
        ClearEndsClear(n, route, exclude);
      }
    }
  }

  /** A clear route ends at a node that is not an excluded directory. */
  lemma {:induction false} ClearEndsClear(n: Node, route: seq<nat>, exclude: seq<string>)
    requires NodeAt(n, route).Some? && Clear(n, route, exclude)
    ensures var m := NodeAt(n, route).value; m.Dir? ==> m.path !in exclude
    decreases |route|
  {
    if |route| > 0 {
      ClearEndsClear(n.children[route[0]], route[1..], exclude);
    }
  }

  /** With nothing excluded, the walk visits every node of the tree. */
  lemma NothingExcludedVisitsAll(n: Node, route: seq<nat>)
    requires NodeAt(n, route).Some?
    ensures NodeAt(n, route).value in Visible(n, [])
  {
    NoExclusionClear(n, route);
    VisibleIff(n, [], NodeAt(n, route).value);
  }

  lemma {:induction false} NoExclusionClear(n: Node, route: seq<nat>)
    requires NodeAt(n, route).Some?
    ensures Clear(n, route, [])
    decreases |route|
  {
    if |route| > 0 {
      NoExclusionClear(n.children[route[0]], route[1..]);
    }
  }

  /** The directories among the visited nodes, in visiting order. */
  function DirPaths(ns: seq<Node>): (ps: seq<string>)
    ensures |ps| <= |ns|
    ensures forall p :: p in ps <==> exists k :: 0 <= k < |ns| && ns[k].Dir? && ns[k].path == p
  {
    if |ns| == 0 then []
    else (if ns[0].Dir? then [ns[0].path] else []) + DirPaths(ns[1..])
  }
}
