/** The tree that recursive fetching follows, read off the child lists. */
module OverlayTree {
  import opened Collections
  import opened Overlay
  import opened TreeBuilders
  import opened ScatterGather

  /** Every node of `t` has exactly the children its list names, in order. */
  ghost predicate Matches(children: map<Id, seq<Id>>, t: Tree) {
    Lookup(children, t.id) == Ids(t.kids) && forall k :: k in t.kids ==> Matches(children, k)
  }

  /** The child lists determine the tree below a node, if there is a finite one. */
  lemma {:induction false} MatchesUnique(children: map<Id, seq<Id>>, t: Tree, u: Tree)
    requires Matches(children, t) && Matches(children, u) && t.id == u.id
    ensures t == u
    decreases t
  {
    assert |t.kids| == |Ids(t.kids)| == |u.kids|;
    forall i | 0 <= i < |t.kids| ensures t.kids[i] == u.kids[i] {
      assert Ids(t.kids)[i] == Ids(u.kids)[i];
      MatchesUnique(children, t.kids[i], u.kids[i]);
    }
  }

  // -------------------------------------------------------- the tree of a BFS

  ghost function TreeAt(sc: Scan, k: nat): Tree
    requires Rooted(sc) && k < |sc.order|
    decreases |sc.order| - k, |sc.order| + 1
  {
    Tree(sc.order[k], TreesFrom(sc, k, k + 1))
  }

  // The subtrees of vertex `k` rooted at positions `c` and later.
  ghost function TreesFrom(sc: Scan, k: nat, c: nat): seq<Tree>
    requires Rooted(sc) && k < c <= |sc.order|
    decreases |sc.order| - k, |sc.order| - c
  {
    if c == |sc.order| then []
    else (if sc.from[c] == k then [TreeAt(sc, c)] else []) + TreesFrom(sc, k, c + 1)
  }

  lemma {:induction false} NoKidsBefore(sc: Scan, k: nat, n: nat)
    requires Rooted(sc) && NoDup(sc.order) && k < |sc.order| && n <= k + 1
    ensures Kids(sc, sc.order[k], n) == []
  {
    if n > 1 { NoKidsBefore(sc, k, n - 1); }
  }

  lemma IdsFrom(sc: Scan, k: nat, c: nat)
    requires Rooted(sc) && k < c < |sc.order|
    ensures Ids(TreesFrom(sc, k, c)) == (if sc.from[c] == k then [sc.order[c]] else []) + Ids(TreesFrom(sc, k, c + 1))
  {
    var rest := TreesFrom(sc, k, c + 1);
    if sc.from[c] == k {
      assert Ids([TreeAt(sc, c)] + rest) == [sc.order[c]] + Ids(rest);
    } else {
      assert TreesFrom(sc, k, c) == rest;
    }
  }

  lemma {:induction false} KidsSplit(sc: Scan, k: nat, c: nat)
    requires Rooted(sc) && NoDup(sc.order) && k < c <= |sc.order|
    ensures Kids(sc, sc.order[k], c) + Ids(TreesFrom(sc, k, c)) == Kids(sc, sc.order[k], |sc.order|)
    decreases |sc.order| - c
  {
    if c < |sc.order| {
      KidsSplit(sc, k, c + 1);
      IdsFrom(sc, k, c);
      assert sc.order[sc.from[c]] == sc.order[k] <==> sc.from[c] == k;
    }
  }

  lemma KidsOfTree(sc: Scan, k: nat)
    requires Rooted(sc) && NoDup(sc.order) && k < |sc.order|
    ensures Ids(TreesFrom(sc, k, k + 1)) == Kids(sc, sc.order[k], |sc.order|)
  {
    NoKidsBefore(sc, k, k + 1);
    KidsSplit(sc, k, k + 1);
  }

  lemma {:induction false} TreeAtMatches(children: map<Id, seq<Id>>, sc: Scan, k: nat)
    requires GivesKids(children, sc) && NoDup(sc.order) && k < |sc.order|
    ensures Matches(children, TreeAt(sc, k))
    decreases |sc.order| - k, |sc.order| + 1
  {
    var kids := TreesFrom(sc, k, k + 1);
    KidsOfTree(sc, k);
    assert Lookup(children, sc.order[k]) == Ids(kids);
    TreesFromMatch(children, sc, k, k + 1);
    assert TreeAt(sc, k) == Tree(sc.order[k], kids);
  }

  lemma {:induction false} TreesFromMatch(children: map<Id, seq<Id>>, sc: Scan, k: nat, c: nat)
    requires GivesKids(children, sc) && NoDup(sc.order) && k < c <= |sc.order|
    ensures forall t :: t in TreesFrom(sc, k, c) ==> Matches(children, t)
    decreases |sc.order| - k, |sc.order| - c
  {
    if c == |sc.order| {
      assert TreesFrom(sc, k, c) == [];
    } else {
      var rest := TreesFrom(sc, k, c + 1);
      TreesFromMatch(children, sc, k, c + 1);
      if sc.from[c] == k {
        TreeAtMatches(children, sc, c);
        assert TreesFrom(sc, k, c) == [TreeAt(sc, c)] + rest;
      } else {
        assert TreesFrom(sc, k, c) == rest;
      }
    }
  }

  // ------------------------------------------------ each vertex exactly once

  // Position `j` lies in the subtree of position `k`.
  ghost predicate Below(sc: Scan, j: nat, k: nat)
    requires Rooted(sc) && j < |sc.order|
    decreases j
  {
    j == k || (j > k && Below(sc, sc.from[j], k))
  }

  // The child of `k` on the way up from `j`.
  ghost function Branch(sc: Scan, j: nat, k: nat): nat
    requires Rooted(sc) && j < |sc.order| && j != k && Below(sc, j, k)
    decreases j
  {
    if sc.from[j] == k then j else Branch(sc, sc.from[j], k)
  }

  lemma {:induction false} BranchUnique(sc: Scan, j: nat, k: nat, c: nat)
    requires Rooted(sc) && j < |sc.order| && k < c < |sc.order| && sc.from[c] == k
    ensures Below(sc, j, c) <==> j != k && Below(sc, j, k) && Branch(sc, j, k) == c
    decreases j
  {
    if j > c {
      BranchUnique(sc, sc.from[j], k, c);
      assert Below(sc, j, k) == Below(sc, sc.from[j], k) && Below(sc, j, c) == Below(sc, sc.from[j], c);
    } else if j == c {
      assert Below(sc, k, k) && Below(sc, c, k);
    } else {
      assert !Below(sc, j, c);
      if j > k && Below(sc, j, k) { BranchInside(sc, j, k); }
    }
  }

  lemma {:induction false} BranchInside(sc: Scan, j: nat, k: nat)
    requires Rooted(sc) && j < |sc.order| && j != k && Below(sc, j, k)
    ensures k < Branch(sc, j, k) <= j && sc.from[Branch(sc, j, k)] == k
    decreases j
  {
    if sc.from[j] != k { BranchInside(sc, sc.from[j], k); }
  }

  lemma {:induction false} AllBelowRoot(sc: Scan, j: nat)
    requires Rooted(sc) && j < |sc.order|
    ensures Below(sc, j, 0)
  {
    if j > 0 { AllBelowRoot(sc, sc.from[j]); }
  }

  ghost function Count(ts: seq<Tree>, v: Id): nat {
    multiset(Ids(ts))[v]
  }

  lemma CountAppend(a: seq<Tree>, b: seq<Tree>, v: Id)
    ensures Count(a + b, v) == Count(a, v) + Count(b, v)
  {
    assert Ids(a + b) == Ids(a) + Ids(b);
  }

  lemma {:induction false} TreeCount(sc: Scan, k: nat, j: nat)
    requires Rooted(sc) && NoDup(sc.order) && k < |sc.order| && j < |sc.order|
    ensures Count(Preorder(TreeAt(sc, k)), sc.order[j]) == if Below(sc, j, k) then 1 else 0
    decreases |sc.order| - k, |sc.order| + 1
  {
    var t := TreeAt(sc, k);
    ForestCount(sc, k, k + 1, j);
    CountAppend([t], PreorderAll(t.kids), sc.order[j]);
    assert Ids([t]) == [sc.order[k]];
    if j != k && Below(sc, j, k) { BranchInside(sc, j, k); }
  }

  // The forest from position `c` on starts with the tree at `c`, if that is a child.
  lemma ForestUnfold(sc: Scan, k: nat, c: nat)
    requires Rooted(sc) && k < c < |sc.order|
    ensures var all, rest := TreesFrom(sc, k, c), TreesFrom(sc, k, c + 1);
            && PreorderAll(all) ==
               (if sc.from[c] == k then Preorder(TreeAt(sc, c)) + PreorderAll(rest) else PreorderAll(rest))
            && PathsAll(all) == (if sc.from[c] == k then Paths(TreeAt(sc, c)) + PathsAll(rest) else PathsAll(rest))
  {
    var rest := TreesFrom(sc, k, c + 1);
    if sc.from[c] == k {
      assert TreesFrom(sc, k, c) == [TreeAt(sc, c)] + rest;
      assert ([TreeAt(sc, c)] + rest)[1..] == rest;
    } else {
      assert TreesFrom(sc, k, c) == rest;
    }
  }

  lemma ForestCountUnfold(sc: Scan, k: nat, c: nat, v: Id)
    requires Rooted(sc) && k < c < |sc.order|
    ensures Count(PreorderAll(TreesFrom(sc, k, c)), v) ==
            (if sc.from[c] == k then Count(Preorder(TreeAt(sc, c)), v) else 0)
            + Count(PreorderAll(TreesFrom(sc, k, c + 1)), v)
  {
    ForestUnfold(sc, k, c);
    CountAppend(Preorder(TreeAt(sc, c)), PreorderAll(TreesFrom(sc, k, c + 1)), v);
  }

  // One if `j` lies below a child of `k` at position `c` or later.
  ghost function BelowFrom(sc: Scan, j: nat, k: nat, c: nat): nat
    requires Rooted(sc) && j < |sc.order|
  {
    if j != k && Below(sc, j, k) && Branch(sc, j, k) >= c then 1 else 0
  }

  lemma BelowFromStep(sc: Scan, j: nat, k: nat, c: nat)
    requires Rooted(sc) && j < |sc.order| && k < c < |sc.order|
    ensures BelowFrom(sc, j, k, c) == (if sc.from[c] == k && Below(sc, j, c) then 1 else 0) + BelowFrom(sc, j, k, c + 1)
  {
    if j != k && Below(sc, j, k) { BranchInside(sc, j, k); }
    if sc.from[c] == k { BranchUnique(sc, j, k, c); }
  }

  lemma BelowFromEnd(sc: Scan, j: nat, k: nat)
    requires Rooted(sc) && j < |sc.order|
    ensures BelowFrom(sc, j, k, |sc.order|) == 0
  {
    if j != k && Below(sc, j, k) { BranchInside(sc, j, k); }
  }

  lemma NoForest(sc: Scan, k: nat, v: Id)
    requires Rooted(sc) && k < |sc.order|
    ensures TreesFrom(sc, k, |sc.order|) == [] && Count(PreorderAll([]), v) == 0
  {
    assert Ids([]) == [];
  }

  lemma {:induction false} ForestCount(sc: Scan, k: nat, c: nat, j: nat)
    requires Rooted(sc) && NoDup(sc.order) && k < c <= |sc.order| && j < |sc.order|
    ensures Count(PreorderAll(TreesFrom(sc, k, c)), sc.order[j]) == BelowFrom(sc, j, k, c)
    decreases |sc.order| - k, |sc.order| - c
  {
    if c < |sc.order| {
      ForestCount(sc, k, c + 1, j);
      ForestCountUnfold(sc, k, c, sc.order[j]);
      BelowFromStep(sc, j, k, c);
      if sc.from[c] == k { TreeCount(sc, c, j); }
    } else {
      BelowFromEnd(sc, j, k);
      NoForest(sc, k, sc.order[j]);
    }
  }

  predicate AllQueued(ts: seq<Tree>, order: seq<Id>) {
    forall i :: 0 <= i < |ts| ==> ts[i].id in order
  }

  lemma AllQueuedAppend(a: seq<Tree>, b: seq<Tree>, order: seq<Id>)
    requires AllQueued(a, order) && AllQueued(b, order)
    ensures AllQueued(a + b, order)
  {}

  lemma {:induction false} TreeNamesQueued(sc: Scan, k: nat)
    requires Rooted(sc) && k < |sc.order|
    ensures AllQueued(Preorder(TreeAt(sc, k)), sc.order)
    decreases |sc.order| - k, |sc.order| + 1
  {
    ForestNamesQueued(sc, k, k + 1);
    AllQueuedAppend([TreeAt(sc, k)], PreorderAll(TreesFrom(sc, k, k + 1)), sc.order);
  }

  lemma ForestQueuedStep(sc: Scan, k: nat, c: nat)
    requires Rooted(sc) && k < c < |sc.order|
    requires AllQueued(PreorderAll(TreesFrom(sc, k, c + 1)), sc.order)
    requires sc.from[c] == k ==> AllQueued(Preorder(TreeAt(sc, c)), sc.order)
    ensures AllQueued(PreorderAll(TreesFrom(sc, k, c)), sc.order)
  {
    var rest := PreorderAll(TreesFrom(sc, k, c + 1));
    ForestUnfold(sc, k, c);
    if sc.from[c] == k { AllQueuedAppend(Preorder(TreeAt(sc, c)), rest, sc.order); }
  }

  lemma {:induction false} ForestNamesQueued(sc: Scan, k: nat, c: nat)
    requires Rooted(sc) && k < c <= |sc.order|
    ensures AllQueued(PreorderAll(TreesFrom(sc, k, c)), sc.order)
    decreases |sc.order| - k, |sc.order| - c
  {
    if c == |sc.order| {
      NoForest(sc, k, "");
      assert PreorderAll([]) == [];
    } else {
      ForestNamesQueued(sc, k, c + 1);
      if sc.from[c] == k { TreeNamesQueued(sc, c); }
      ForestQueuedStep(sc, k, c);
    }
  }

  /** Following the child lists built from the overlay gives a finite tree in which every vertex
      reachable from the root occurs exactly once, and no other vertex occurs. */
  lemma BuiltTree(edges: Edges, root: Id, children: map<Id, seq<Id>>) returns (t: Tree)
    requires GivesKids(children, BfsOf(edges, root))
    ensures t.id == root && Matches(children, t)
    ensures forall v :: Count(Preorder(t), v) == if exists w :: WalkFromTo(edges, root, v, w) then 1 else 0
    ensures t == TreeAt(BfsOf(edges, root), 0)
  {
    var sc := BfsOf(edges, root);
    SpanningTree(edges, root);
    t := TreeAt(sc, 0);
    TreeAtMatches(children, sc, 0);
    TreeNamesQueued(sc, 0);
    var nodes := Preorder(t);
    forall v | v in Ids(nodes) ensures v in sc.order {
      var i :| 0 <= i < |nodes| && Ids(nodes)[i] == v;
    }
    forall v ensures Count(nodes, v) == if v in sc.order then 1 else 0 {
      if v in sc.order {
        var j :| 0 <= j < |sc.order| && sc.order[j] == v;
        TreeCount(sc, 0, j);
        AllBelowRoot(sc, j);
      }
    }
  }

  // ------------------------------------------------------- shortest paths

  // The path from the root to the parent of `k`.
  ghost function Above(sc: Scan, k: nat): seq<Id>
    requires Rooted(sc) && k < |sc.order|
  {
    if k == 0 then [] else PathTo(sc, sc.from[k])
  }

  lemma AboveThenSelf(sc: Scan, k: nat, q: seq<Id>)
    requires Rooted(sc) && k < |sc.order|
    ensures PathTo(sc, k) == Above(sc, k) + [sc.order[k]]
    ensures PathTo(sc, k) + q == Above(sc, k) + ([sc.order[k]] + q)
  {
    assert (Above(sc, k) + [sc.order[k]]) + q == Above(sc, k) + ([sc.order[k]] + q);
  }

  /** A path in the subtree of `k` continues the path from the root to the parent of `k`. */
  lemma {:induction false} TreePath(sc: Scan, k: nat, p: seq<Id>) returns (j: nat)
    requires Rooted(sc) && k < |sc.order| && p in Paths(TreeAt(sc, k))
    ensures j < |sc.order| && PathTo(sc, j) == Above(sc, k) + p
    decreases |sc.order| - k, |sc.order| + 1
  {
    var q := PathBelow(TreeAt(sc, k), p);
    AboveThenSelf(sc, k, q);
    if q == [] {
      j := k;
    } else {
      j := ForestPath(sc, k, k + 1, q);
    }
  }

  // A path of a tree is its root alone, or its root followed by a path of a subtree.
  lemma PathBelow(t: Tree, p: seq<Id>) returns (q: seq<Id>)
    requires p in Paths(t)
    ensures p == [t.id] + q && (q == [] || q in PathsAll(t.kids))
  {
    var i :| 0 <= i < |Paths(t)| && Paths(t)[i] == p;
    if i == 0 { q := []; } else { q := PathsAll(t.kids)[i - 1]; }
  }

  lemma PathInForest(sc: Scan, k: nat, c: nat, q: seq<Id>) returns (here: bool)
    requires Rooted(sc) && k < c <= |sc.order| && q in PathsAll(TreesFrom(sc, k, c))
    ensures c < |sc.order|
    ensures if here then sc.from[c] == k && q in Paths(TreeAt(sc, c)) else q in PathsAll(TreesFrom(sc, k, c + 1))
  {
    if c == |sc.order| {
      NoForest(sc, k, "");
      here := false;
    } else {
      ForestUnfold(sc, k, c);
      here := sc.from[c] == k && q in Paths(TreeAt(sc, c));
    }
  }

  lemma {:induction false} ForestPath(sc: Scan, k: nat, c: nat, q: seq<Id>) returns (j: nat)
    requires Rooted(sc) && k < c <= |sc.order| && q in PathsAll(TreesFrom(sc, k, c))
    ensures j < |sc.order| && PathTo(sc, j) == PathTo(sc, k) + q
    decreases |sc.order| - k, |sc.order| - c
  {
    var here := PathInForest(sc, k, c, q);
    if here {
      j := TreePath(sc, c, q);
      assert Above(sc, c) == PathTo(sc, k);
    } else {
      j := ForestPath(sc, k, c + 1, q);
    }
  }

  lemma RootPath(sc: Scan, p: seq<Id>) returns (j: nat)
    requires Rooted(sc) && p in Paths(TreeAt(sc, 0))
    ensures j < |sc.order| && p == PathTo(sc, j)
  {
    j := TreePath(sc, 0, p);
    assert PathTo(sc, j) == [] + p;
  }

  /** Requests travel shortest routes: each root path of the tree is a walk of the overlay, and no
      walk to the same node is shorter. */
  lemma PathsAreShortest(edges: Edges, root: Id, sc: Scan, p: seq<Id>)
    requires sc == BfsOf(edges, root) && Rooted(sc) && p in Paths(TreeAt(sc, 0))
    ensures p != [] && WalkFromTo(edges, root, p[|p| - 1], p)
    ensures forall w :: WalkFromTo(edges, root, p[|p| - 1], w) ==> |p| <= |w|
  {
    var j := RootPath(sc, p);
    DepthIsDistance(edges, root, j);
  }

  // ------------------------------------------------ connecting the nodes

  /** Each node connects to the children its configuration names; together they form the tree. */
  method ConnectTree(cfg: ClusterConfig, id: Id, ghost t: Tree) returns (u: Tree)
    requires Matches(cfg.children, t) && t.id == id
    ensures u == t
    decreases t
  {
    var ids := cfg.GetChildren(id);
    var kids: seq<Tree> := [];
    for k := 0 to |ids|
      invariant |ids| == |t.kids| && kids == t.kids[..k]
    {
      assert Ids(t.kids)[k] == t.kids[k].id;
      var kid := ConnectTree(cfg, ids[k], t.kids[k]);
      kids := kids + [kid];
    }
    u := Tree(id, kids);
  }

  // One for the vertices joined to the root, the root itself left out.
  ghost predicate OncePerVertex(edges: Edges, root: Id, kids: seq<Tree>) {
    forall v :: Count(PreorderAll(kids), v) == if v != root && (exists w :: WalkFromTo(edges, root, v, w)) then 1 else 0
  }

  lemma BelowTheRoot(edges: Edges, root: Id, children: map<Id, seq<Id>>) returns (t: Tree)
    requires GivesKids(children, BfsOf(edges, root))
    ensures t.id == root && Matches(children, t) && OncePerVertex(edges, root, t.kids)
  {
    t := BuiltTree(edges, root, children);
    assert WalkFromTo(edges, root, root, [root]);
    forall v
      ensures Count(PreorderAll(t.kids), v) == if v != root && (exists w :: WalkFromTo(edges, root, v, w)) then 1 else 0
    {
      CountAppend([t], PreorderAll(t.kids), v);
      assert Count(Preorder(t), v) == if exists w :: WalkFromTo(edges, root, v, w) then 1 else 0;
      assert Ids([t]) == [root];
      assert Count([t], v) == if v == root then 1 else 0;
    }
  }

  /** Starting every node from a configuration built from the overlay connects the leader to a finite
      tree with every other node joined to it exactly once below it. */
  method ConnectOverlay(edges: Edges, roles: seq<(Id, string)>, nodes: seq<Id>) returns (t: Tree)
    requires FirstLeader(roles).Some? && FirstLeader(roles).value != ""
    ensures t.id == FirstLeader(roles).value && OncePerVertex(edges, t.id, t.kids)
    ensures exists children :: GivesKids(children, BfsOf(edges, t.id)) && Matches(children, t)
  {
    var cfg := new ClusterConfig();
    cfg.Load(edges, roles, nodes, None);
    BfsComplete(edges, cfg.root);
    ghost var built := BelowTheRoot(edges, cfg.root, cfg.children);
    t := ConnectTree(cfg, cfg.root, built);
  }
}
