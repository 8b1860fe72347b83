/** The two builders of the child lists: the C++ configuration object and the Python function. */
module TreeBuilders {
  import opened Collections
  import opened Overlay

  function Lookup(m: map<Id, seq<Id>>, v: Id): seq<Id> {
    if v in m then m[v] else []
  }

  ghost predicate IsAdjacency(adj: map<Id, seq<Id>>, edges: Edges) {
    forall v :: Lookup(adj, v) == Neighbours(edges, v)
  }

  /** The children of `v` among the first `n` queued vertices, in queue order. */
  ghost function Kids(sc: Scan, v: Id, n: nat): seq<Id>
    requires Rooted(sc) && n <= |sc.order|
  {
    if n <= 1 then []
    else Kids(sc, v, n - 1) + if sc.order[sc.from[n - 1]] == v then [sc.order[n - 1]] else []
  }

  lemma {:induction false} KidsOfPrefix(sc: Scan, sc': Scan, v: Id, n: nat)
    requires Rooted(sc) && Rooted(sc') && sc.order <= sc'.order && sc.from <= sc'.from && n <= |sc.order|
    ensures Kids(sc', v, n) == Kids(sc, v, n)
  {
    if n > 1 {
      KidsOfPrefix(sc, sc', v, n - 1);
    }
  }

  /** The BFS child list of `v`. */
  ghost function BfsKids(edges: Edges, root: Id, v: Id): seq<Id> {
    BfsComplete(edges, root);
    var sc := BfsOf(edges, root);
    Kids(sc, v, |sc.order|)
  }

  function FirstLeader(roles: seq<(Id, string)>): Option<Id> {
    if roles == [] then None
    else if roles[0].1 == "leader" then Some(roles[0].0)
    else FirstLeader(roles[1..])
  }

  /** The leader is the node of the first entry with the role "leader", and there is none without one. */
  lemma {:induction false} FirstLeaderExactly(roles: seq<(Id, string)>)
    ensures forall v :: FirstLeader(roles) == Some(v) <==>
              exists i :: 0 <= i < |roles| && roles[i] == (v, "leader") && forall j :: 0 <= j < i ==>
                roles[j].1 != "leader"
    ensures FirstLeader(roles).None? <==> forall i :: 0 <= i < |roles| ==> roles[i].1 != "leader"
  {
    if roles != [] && roles[0].1 != "leader" {
      var rest := roles[1..];
      FirstLeaderExactly(rest);
      assert forall i :: 0 <= i < |rest| ==> rest[i] == roles[i + 1];
      forall v
        ensures FirstLeader(roles) == Some(v) <==>
                exists i :: 0 <= i < |roles| && roles[i] == (v, "leader") && forall j :: 0 <= j < i ==>
                  roles[j].1 != "leader"
      {
        if i :| 0 <= i < |rest| && rest[i] == (v, "leader") && forall j :: 0 <= j < i ==> rest[j].1 != "leader" {
          assert roles[i + 1] == (v, "leader");
        }
        if i :| 0 <= i < |roles| && roles[i] == (v, "leader") && forall j :: 0 <= j < i ==> roles[j].1 != "leader" {
          assert rest[i - 1] == (v, "leader");
        }
      }
      if forall i :: 0 <= i < |rest| ==> rest[i].1 != "leader" {
        forall i | 0 <= i < |roles| ensures roles[i].1 != "leader" { if i > 0 { assert rest[i - 1] == roles[i]; } }
      }
    }
  }

  // The child list of `v` that a configuration with root `root` stands for.
  ghost function ChildList(edges: Edges, root: Id, given: Option<map<Id, seq<Id>>>, v: Id): seq<Id> {
    if given.Some? then Lookup(given.value, v) else BfsKids(edges, root, v)
  }

  ghost predicate AtPosition(edges: Edges, root: Id, i: nat, q: seq<Id>) {
    Rooted(ScanTo(edges, root, i)) && ScanTo(edges, root, i).order == q
  }

  ghost predicate Seen(visited: map<Id, bool>, q: seq<Id>) {
    forall v :: v in visited && visited[v] <==> v in q
  }

  ghost predicate GivesKids(children: map<Id, seq<Id>>, sc: Scan) {
    Rooted(sc) && forall v :: Lookup(children, v) == Kids(sc, v, |sc.order|)
  }

  lemma NothingToScan(edges: Edges, root: Id, i: nat)
    requires i < |ScanTo(edges, root, i).order| && Neighbours(edges, ScanTo(edges, root, i).order[i]) == []
    ensures ScanTo(edges, root, i + 1) == ScanTo(edges, root, i)
  {}

  lemma SearchDone(edges: Edges, root: Id, i: nat, children: map<Id, seq<Id>>)
    requires i == |ScanTo(edges, root, i).order| && GivesKids(children, ScanTo(edges, root, i))
    ensures GivesKids(children, BfsOf(edges, root))
  {
    LoopFacts(edges, root, i);
  }

  lemma KidsExtended(sc: Scan, next: Scan, nb: Id, i: nat, v: Id)
    requires Rooted(sc) && Rooted(next) && i < |sc.order|
    requires next.order == sc.order + [nb] && next.from == sc.from + [i]
    ensures Kids(next, v, |next.order|) == Kids(sc, v, |sc.order|) + if sc.order[i] == v then [nb] else []
  {
    KidsOfPrefix(sc, next, v, |sc.order|);
  }

  lemma KidsGrow(children: map<Id, seq<Id>>, sc: Scan, next: Scan, cur: Id, nb: Id, i: nat)
    requires GivesKids(children, sc) && Rooted(next) && i < |sc.order| && sc.order[i] == cur
    requires next.order == sc.order + [nb] && next.from == sc.from + [i]
    ensures GivesKids(children[cur := Lookup(children, cur) + [nb]], next)
  {
    forall v ensures Lookup(children[cur := Lookup(children, cur) + [nb]], v) == Kids(next, v, |next.order|) {
      KidsExtended(sc, next, nb, i, v);
    }
  }

  class ClusterConfig {
    var adj: map<Id, seq<Id>>
    var children: map<Id, seq<Id>>
    var root: Id

    constructor ()
      ensures adj == map[] && children == map[] && root == ""
    {
      adj, children, root := map[], map[], "";
    }

    method ReadOverlay(edges: Edges)
      requires adj == map[]
      modifies this`adj
      ensures IsAdjacency(adj, edges)
    {
      for n := 0 to |edges|
        invariant IsAdjacency(adj, edges[..n])
      {
        var (a, b) := edges[n];
        assert edges[..n + 1][..n] == edges[..n];
        adj := adj[a := Lookup(adj, a) + [b]];
        adj := adj[b := Lookup(adj, b) + [a]];
      }
      assert edges[..|edges|] == edges;
    }

    /** The first node whose role is leader; failing that, the first node id. */
    method ChooseRoot(roles: seq<(Id, string)>, nodes: seq<Id>)
      requires root == ""
      modifies this`root
      ensures root == if FirstLeader(roles).Some? && FirstLeader(roles).value != "" then FirstLeader(roles).value
                      else if nodes != [] then nodes[0] else ""
      ensures forall i :: 0 <= i < |roles| && roles[i].1 == "leader" && roles[i].0 != "" ==>
                (exists j :: 0 <= j < i && roles[j].1 == "leader") || root == roles[i].0
    {
      FirstLeaderExactly(roles);
      var n := 0;
      while n < |roles|
        invariant n <= |roles| && root == "" && FirstLeader(roles[n..]) == FirstLeader(roles)
      {
        if roles[n].1 == "leader" {
          root := roles[n].0;
          break;
        }
        n := n + 1;
      }
      if root == "" && nodes != [] { root := nodes[0]; }
    }

    /** Copies the explicit child lists, entry by entry in any order. */
    method ReadChildren(given: map<Id, seq<Id>>)
      requires children == map[]
      modifies this`children
      ensures forall v :: Lookup(children, v) == Lookup(given, v)
    {
      var todo := given.Keys;
      while todo != {}
        invariant todo <= given.Keys
        invariant forall v :: Lookup(children, v) == if v in todo then [] else Lookup(given, v)
        decreases todo
      {
        var parent :| parent in todo;
        for n := 0 to |given[parent]|
          invariant forall v :: v != parent ==> Lookup(children, v) == if v in todo then [] else Lookup(given, v)
          invariant Lookup(children, parent) == given[parent][..n]
        {
          children := children[parent := Lookup(children, parent) + [given[parent][n]]];
        }
        todo := todo - {parent};
      }
    }

    /** Breadth-first search, if there is a root. */
    method BuildTree(ghost edges: Edges)
      requires IsAdjacency(adj, edges) && children == map[]
      modifies this`children
      ensures if root == "" then children == map[] else GivesKids(children, BfsOf(edges, root))
    {
      if root == "" { return; }
      ghost var scanned := Search(root, edges);
      SearchDone(edges, root, scanned, children);
    }

    /** The queue grows while it is read. The scanned id is held by value. */
    method Search(root: Id, ghost edges: Edges) returns (ghost scanned: nat)
      requires IsAdjacency(adj, edges) && children == map[]
      modifies this`children
      ensures scanned == |ScanTo(edges, root, scanned).order| && GivesKids(children, ScanTo(edges, root, scanned))
    {
      var adj := adj;
      var visited: map<Id, bool> := map[root := true];
      var q := [root];
      var i := 0;
      while i < |q|
        invariant i <= |q| && AtPosition(edges, root, i, q)
        invariant Seen(visited, q) && GivesKids(children, ScanTo(edges, root, i))
        decreases Bound(edges) - i
      {
        LoopFacts(edges, root, i);
        VisitGrows(edges, root, i);
        var cur := q[i];
        assert Lookup(adj, cur) == Neighbours(edges, cur);
        if cur in adj {
          visited, q := ScanNeighbours(cur, adj[cur], visited, q, ScanTo(edges, root, i), i);
        } else {
          NothingToScan(edges, root, i);
        }
        i := i + 1;
      }
      scanned := i;
    }

    /** The inner loop of the search. */
    method ScanNeighbours(cur: Id, nbs: seq<Id>, visited0: map<Id, bool>, q0: seq<Id>, ghost sc0: Scan, ghost i: nat)
      returns (visited: map<Id, bool>, q: seq<Id>)
      requires i < |q0| && sc0.order == q0 && q0[i] == cur && Grows(sc0, i, nbs)
      requires Seen(visited0, q0) && GivesKids(children, sc0)
      modifies this`children
      ensures q == Visit(sc0, i, nbs).order && Seen(visited, q) && GivesKids(children, Visit(sc0, i, nbs))
    {
      visited, q := visited0, q0;
      ghost var sc := sc0;
      for n := 0 to |nbs|
        invariant sc == Visit(sc0, i, nbs[..n]) && sc.order == q && q0 <= q
        invariant Seen(visited, q) && GivesKids(children, sc)
      {
        var nb := nbs[n];
        assert nbs[..n + 1][..n] == nbs[..n];
        ghost var next := Visit(sc0, i, nbs[..n + 1]);
        if nb !in visited { visited := visited[nb := false]; }
        if !visited[nb] {
          visited := visited[nb := true];
          KidsGrow(children, sc, next, cur, nb, i);
          children := children[cur := Lookup(children, cur) + [nb]];
          q := q + [nb];
        }
        sc := next;
      }
      assert nbs[..|nbs|] == nbs;
    }

    method GetChildren(id: Id) returns (ids: seq<Id>)
      ensures ids == Lookup(children, id)
    {
      ids := if id in children then children[id] else [];
    }

    /** The part of `load` after parsing. */
    method Load(edges: Edges, roles: seq<(Id, string)>, nodes: seq<Id>, given: Option<map<Id, seq<Id>>>)
      requires adj == map[] && children == map[] && root == ""
      modifies this
      ensures root == if FirstLeader(roles).Some? && FirstLeader(roles).value != "" then FirstLeader(roles).value
                      else if nodes != [] then nodes[0] else ""
      ensures forall i :: 0 <= i < |roles| && roles[i].1 == "leader" && roles[i].0 != "" ==>
                (exists j :: 0 <= j < i && roles[j].1 == "leader") || root == roles[i].0
      ensures given.Some? ==> forall v :: Lookup(children, v) == Lookup(given.value, v)
      ensures root == "" && given.None? ==> children == map[]
      ensures root != "" || given.Some? ==> forall v :: Lookup(children, v) == ChildList(edges, root, given, v)
    {
      ReadOverlay(edges);
      ChooseRoot(roles, nodes);
      if given.Some? {
        ReadChildren(given.value);
      } else {
        BuildTree(edges);
        BfsComplete(edges, root);
      }
    }
  }

  /** The Python builder keeps a parent dictionary, in insertion order, and inverts it afterwards.
      It raises StopIteration when no leader is declared. */
  method PyBuildChildren(edges: Edges, roles: seq<(Id, string)>, given: Option<map<Id, seq<Id>>>)
    returns (r: Option<map<Id, seq<Id>>>)
    ensures r.None? <==> given.None? && FirstLeader(roles).None?
    ensures FirstLeader(roles).None? <==> forall i :: 0 <= i < |roles| ==> roles[i].1 != "leader"
    ensures given.Some? ==> r == given
    ensures given.None? && r.Some? ==> forall v :: Lookup(r.value, v) == BfsKids(edges, FirstLeader(roles).value, v)
  {
    FirstLeaderExactly(roles);
    if given.Some? { return given; }
    var adj := PyAdjacency(edges);
    var leader := PyLeader(roles);
    if leader.None? { return None; }
    var queue, parent, n := PyParents(edges, adj, leader.value);
    ParentsDone(edges, leader.value, n, queue, parent);
    var children := PyInvert(queue, parent, BfsOf(edges, leader.value));
    r := Some(children);
  }

  ghost predicate ParentsOf(parent: map<Id, Option<Id>>, sc: Scan) {
    && Rooted(sc)
    && (forall v :: v in parent <==> v in sc.order)
    && (forall k {:trigger sc.from[k]} :: 0 <= k < |sc.order| ==>
          parent[sc.order[k]] == if k == 0 then None else Some(sc.order[sc.from[k]]))
  }

  /** Rebuilds the child lists from the parent dictionary. */
  method PyInvert(queue: seq<Id>, parent: map<Id, Option<Id>>, ghost sc: Scan) returns (children: map<Id, seq<Id>>)
    requires queue == sc.order && ParentsOf(parent, sc)
    ensures GivesKids(children, sc)
  {
    children := map v | v in parent :: [];
    for n := 0 to |queue|
      invariant children.Keys == parent.Keys
      invariant forall v :: Lookup(children, v) == Kids(sc, v, n)
    {
      var child := queue[n];
      var par := parent[child];
      assert sc.from[n] >= 0;
      if par.Some? {
        assert par.value == sc.order[sc.from[n]] && par.value in parent;
        children := children[par.value := children[par.value] + [child]];
      }
    }
  }

  method PyAdjacency(edges: Edges) returns (adj: map<Id, seq<Id>>)
    ensures IsAdjacency(adj, edges)
  {
    adj := map[];
    for n := 0 to |edges|
      invariant IsAdjacency(adj, edges[..n])
    {
      var (a, b) := edges[n];
      assert edges[..n + 1][..n] == edges[..n];
      adj := adj[a := Lookup(adj, a) + [b]];
      adj := adj[b := Lookup(adj, b) + [a]];
    }
    assert edges[..|edges|] == edges;
  }

  method PyLeader(roles: seq<(Id, string)>) returns (leader: Option<Id>)
    ensures leader == FirstLeader(roles)
  {
    var n := 0;
    while n < |roles|
      invariant n <= |roles| && FirstLeader(roles[n..]) == FirstLeader(roles)
    {
      if roles[n].1 == "leader" { return Some(roles[n].0); }
      n := n + 1;
    }
    leader := None;
  }

  /** `queue` is also the insertion order of the keys of `parent`. */
  method PyParents(edges: Edges, adj: map<Id, seq<Id>>, root: Id)
    returns (queue: seq<Id>, parent: map<Id, Option<Id>>, ghost scanned: nat)
    requires IsAdjacency(adj, edges)
    ensures scanned == |queue| && AtPosition(edges, root, scanned, queue)
    ensures ParentsOf(parent, ScanTo(edges, root, scanned))
  {
    parent := map[root := None];
    queue := [root];
    var i := 0;
    while i < |queue|
      invariant i <= |queue| && AtPosition(edges, root, i, queue)
      invariant ParentsOf(parent, ScanTo(edges, root, i))
      decreases Bound(edges) - i
    {
      LoopFacts(edges, root, i);
      VisitGrows(edges, root, i);
      var cur := queue[i];
      assert Lookup(adj, cur) == Neighbours(edges, cur);
      queue, parent := PyScanNeighbours(cur, Lookup(adj, cur), queue, parent, ScanTo(edges, root, i), i);
      i := i + 1;
    }
    scanned := i;
  }

  lemma ParentsDone(edges: Edges, root: Id, i: nat, queue: seq<Id>, parent: map<Id, Option<Id>>)
    requires i == |queue| && AtPosition(edges, root, i, queue) && ParentsOf(parent, ScanTo(edges, root, i))
    ensures queue == BfsOf(edges, root).order && ParentsOf(parent, BfsOf(edges, root))
  {
    LoopFacts(edges, root, i);
  }

  /** The inner loop of the Python search. */
  method PyScanNeighbours(cur: Id, nbs: seq<Id>, queue0: seq<Id>, parent0: map<Id, Option<Id>>, ghost sc0: Scan,
      ghost i: nat)
    returns (queue: seq<Id>, parent: map<Id, Option<Id>>)
    requires i < |queue0| && sc0.order == queue0 && queue0[i] == cur && Grows(sc0, i, nbs)
    requires ParentsOf(parent0, sc0)
    ensures queue == Visit(sc0, i, nbs).order && ParentsOf(parent, Visit(sc0, i, nbs))
  {
    queue, parent := queue0, parent0;
    ghost var sc := sc0;
    for n := 0 to |nbs|
      invariant sc == Visit(sc0, i, nbs[..n]) && sc.order == queue && queue0 <= queue
      invariant ParentsOf(parent, sc)
    {
      var nb := nbs[n];
      assert nbs[..n + 1][..n] == nbs[..n];
      ghost var next := Visit(sc0, i, nbs[..n + 1]);
      if nb !in parent {
        parent := parent[nb := Some(cur)];
        queue := queue + [nb];
        assert next.order == sc.order + [nb] && next.from == sc.from + [i];
      }
      sc := next;
    }
    assert nbs[..|nbs|] == nbs;
  }

  /** With a declared leader both builders give every node the same children in the same order. */
  method BuildersAgree(edges: Edges, roles: seq<(Id, string)>, nodes: seq<Id>, given: Option<map<Id, seq<Id>>>)
    returns (cpp: map<Id, seq<Id>>, py: map<Id, seq<Id>>)
    requires FirstLeader(roles).Some? && FirstLeader(roles).value != ""
    ensures forall v :: Lookup(cpp, v) == Lookup(py, v) ==
              if given.Some? then Lookup(given.value, v) else BfsKids(edges, FirstLeader(roles).value, v)
  {
    FirstLeaderExactly(roles);
    var cfg := new ClusterConfig();
    cfg.Load(edges, roles, nodes, given);
    cpp := cfg.children;
    var r := PyBuildChildren(edges, roles, given);
    py := r.value;
  }
}
