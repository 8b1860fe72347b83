/** The overlay graph and its breadth-first spanning tree. */
module Overlay {
  import opened Collections

  type Id = string
  type Edges = seq<(Id, Id)>

  // -------------------------------------------------------------- the graph

  /** Neighbours in the order the edge list adds them; each edge adds both directions. */
  function Neighbours(edges: Edges, v: Id): seq<Id> {
    if edges == [] then []
    else
      var (a, b) := edges[|edges| - 1];
      Neighbours(edges[..|edges| - 1], v) + (if a == v then [b] else []) + (if b == v then [a] else [])
  }

  lemma {:induction false} NeighboursAreEdges(edges: Edges, v: Id, w: Id)
    ensures w in Neighbours(edges, v) <==> (v, w) in edges || (w, v) in edges
  {
    if edges != [] {
      var n := |edges| - 1;
      NeighboursAreEdges(edges[..n], v, w);
      assert edges == edges[..n] + [edges[n]];
      forall x, y ensures (x, y) in edges <==> (x, y) in edges[..n] || (x == edges[n].0 && y == edges[n].1) {}
    }
  }

  ghost function Vertices(edges: Edges, root: Id): set<Id> {
    if edges == [] then {root}
    else
      var (a, b) := edges[|edges| - 1];
      Vertices(edges[..|edges| - 1], root) + {a, b}
  }

  /** No graph has more vertices than this. */
  function Bound(edges: Edges): nat {
    2 * |edges| + 1
  }

  lemma {:induction false} FewVertices(edges: Edges, root: Id)
    ensures |Vertices(edges, root)| <= Bound(edges)
  {
    if edges != [] {
      var n := |edges| - 1;
      FewVertices(edges[..n], root);
      var vs, ends := Vertices(edges[..n], root), {edges[n].0, edges[n].1};
      assert |vs + ends| <= |vs| + |ends|;
    }
  }

  lemma {:induction false} NeighbourIsVertex(edges: Edges, root: Id, v: Id, nb: Id)
    requires nb in Neighbours(edges, v)
    ensures nb in Vertices(edges, root)
  {
    var n := |edges| - 1;
    if nb in Neighbours(edges[..n], v) { NeighbourIsVertex(edges[..n], root, v, nb); }
  }

  lemma {:induction false} RootIsVertex(edges: Edges, root: Id)
    ensures root in Vertices(edges, root)
  {
    if edges != [] { RootIsVertex(edges[..|edges| - 1], root); }
  }

  // A walk is a nonempty sequence of vertices, each joined to the next by an edge.
  ghost predicate Walk(edges: Edges, w: seq<Id>) {
    w != [] && forall i :: 0 < i < |w| ==> w[i] in Neighbours(edges, w[i - 1])
  }

  ghost predicate WalkFromTo(edges: Edges, u: Id, v: Id, w: seq<Id>) {
    Walk(edges, w) && w[0] == u && w[|w| - 1] == v
  }

  // --------------------------------------------------------- the BFS result

  /** Vertices in the order they are queued; `order[k]` was queued while `order[from[k]]` was scanned. */
  datatype Scan = Scan(order: seq<Id>, from: seq<nat>)

  ghost predicate WellFormed(edges: Edges, root: Id, sc: Scan) {
    && |sc.order| == |sc.from| > 0
    && sc.order[0] == root && sc.from[0] == 0
    && NoDup(sc.order)
    && (forall k :: 0 <= k < |sc.order| ==> sc.order[k] in Vertices(edges, root))
    && (forall k {:trigger sc.from[k]} :: 0 < k < |sc.order| ==>
          sc.from[k] < k && sc.order[k] in Neighbours(edges, sc.order[sc.from[k]]))
    && InQueueOrder(sc)
  }

  // Every later vertex has an earlier parent.
  ghost predicate Rooted(sc: Scan) {
    && |sc.order| == |sc.from| > 0
    && (forall k :: 0 < k < |sc.order| ==> sc.from[k] < k)
  }

  // Parents come in queue order.
  ghost predicate InQueueOrder(sc: Scan) {
    forall j, k :: 0 <= j <= k < |sc.from| ==> sc.from[j] <= sc.from[k]
  }

  /** The inner loop: queue each neighbour not seen before. */
  function Visit(sc: Scan, i: nat, nbs: seq<Id>): Scan
  {
    if nbs == [] then sc
    else
      var sc' := Visit(sc, i, nbs[..|nbs| - 1]);
      var nb := nbs[|nbs| - 1];
      if nb in sc'.order then sc' else Scan(sc'.order + [nb], sc'.from + [i])
  }

  // All vertices queued so far were queued from positions up to `i`.
  ghost predicate QueuedBy(sc: Scan, i: nat) {
    forall k :: 0 <= k < |sc.from| ==> sc.from[k] <= i
  }

  // Every neighbour of a scanned vertex is queued, and from no later than that scan.
  ghost predicate Covers(sc: Scan, j: nat, nbs: seq<Id>)
  {
    |sc.order| == |sc.from| &&
    forall nb :: nb in nbs ==> exists k :: 0 <= k < |sc.order| && sc.order[k] == nb && sc.from[k] <= j
  }

  lemma QueueOne(edges: Edges, root: Id, sc: Scan, i: nat, nb: Id)
    requires WellFormed(edges, root, sc) && i < |sc.order| && QueuedBy(sc, i)
    requires nb in Neighbours(edges, sc.order[i]) && nb !in sc.order
    ensures WellFormed(edges, root, Scan(sc.order + [nb], sc.from + [i]))
    ensures QueuedBy(Scan(sc.order + [nb], sc.from + [i]), i)
  {
    NeighbourIsVertex(edges, root, sc.order[i], nb);
    var sc' := Scan(sc.order + [nb], sc.from + [i]);
    assert NoDup(sc'.order);
    assert InQueueOrder(sc');
    forall k | 0 < k < |sc'.order|
      ensures sc'.from[k] < k && sc'.order[k] in Neighbours(edges, sc'.order[sc'.from[k]])
    {
      if k < |sc.order| { assert sc'.from[k] == sc.from[k]; }
    }
  }

  lemma CoversMore(sc: Scan, sc': Scan, i: nat, front: seq<Id>, nb: Id)
    requires Covers(sc, i, front) && |sc'.order| == |sc'.from| && sc.order <= sc'.order && sc.from <= sc'.from
    requires exists k :: 0 <= k < |sc'.order| && sc'.order[k] == nb && sc'.from[k] <= i
    ensures Covers(sc', i, front + [nb])
  {
    forall x | x in front + [nb] ensures exists k :: 0 <= k < |sc'.order| && sc'.order[k] == x && sc'.from[k] <= i {
      if x in front {
        var k :| 0 <= k < |sc.order| && sc.order[k] == x && sc.from[k] <= i;
        assert sc'.order[k] == x && sc'.from[k] <= i;
      }
    }
  }

  lemma {:induction false} VisitKeeps(edges: Edges, root: Id, sc: Scan, i: nat, nbs: seq<Id>)
    requires WellFormed(edges, root, sc) && i < |sc.order| && QueuedBy(sc, i)
    requires forall nb :: nb in nbs ==> nb in Neighbours(edges, sc.order[i])
    ensures WellFormed(edges, root, Visit(sc, i, nbs)) && QueuedBy(Visit(sc, i, nbs), i)
    ensures sc.order <= Visit(sc, i, nbs).order && sc.from <= Visit(sc, i, nbs).from
    ensures Covers(Visit(sc, i, nbs), i, nbs)
    decreases |nbs|
  {
    if nbs != [] {
      var front, nb := nbs[..|nbs| - 1], nbs[|nbs| - 1];
      VisitKeeps(edges, root, sc, i, front);
      var sc1 := Visit(sc, i, front);
      assert sc1.order[i] == sc.order[i] && nbs == front + [nb];
      if nb in sc1.order {
        var k :| 0 <= k < |sc1.order| && sc1.order[k] == nb;
        assert sc1.from[k] <= i;
        CoversMore(sc1, sc1, i, front, nb);
      } else {
        var sc2 := Scan(sc1.order + [nb], sc1.from + [i]);
        QueueOne(edges, root, sc1, i, nb);
        assert sc2.order[|sc1.order|] == nb && sc2.from[|sc1.order|] <= i;
        CoversMore(sc1, sc2, i, front, nb);
      }
    }
  }

  lemma QueueFits(edges: Edges, root: Id, sc: Scan)
    requires WellFormed(edges, root, sc)
    ensures |sc.order| <= Bound(edges)
  {
    FewVertices(edges, root);
    NoDupBound(sc.order, Vertices(edges, root));
  }

  /** The queue after the outer loop has scanned `i` positions. */
  function ScanTo(edges: Edges, root: Id, i: nat): Scan {
    if i == 0 then Scan([root], [0])
    else
      var sc := ScanTo(edges, root, i - 1);
      if i - 1 < |sc.order| then Visit(sc, i - 1, Neighbours(edges, sc.order[i - 1])) else sc
  }

  /** Every vertex is queued at most once, so this many positions exhaust the queue. */
  function BfsOf(edges: Edges, root: Id): Scan {
    ScanTo(edges, root, Bound(edges))
  }

  /** The state of the outer loop after `i` positions are scanned. */
  ghost predicate Scanned(edges: Edges, root: Id, sc: Scan, i: nat) {
    && WellFormed(edges, root, sc) && QueuedBy(sc, i) && i <= |sc.order|
    && forall j :: 0 <= j < i ==> Covers(sc, j, Neighbours(edges, sc.order[j]))
  }

  lemma VisitScans(edges: Edges, root: Id, sc: Scan, i: nat)
    requires Scanned(edges, root, sc, i) && i < |sc.order|
    ensures Scanned(edges, root, Visit(sc, i, Neighbours(edges, sc.order[i])), i + 1)
    ensures |sc.order| <= |Visit(sc, i, Neighbours(edges, sc.order[i])).order|
  {
    var nbs := Neighbours(edges, sc.order[i]);
    var sc' := Visit(sc, i, nbs);
    VisitKeeps(edges, root, sc, i, nbs);
    forall j | 0 <= j < i + 1 ensures Covers(sc', j, Neighbours(edges, sc'.order[j])) {
      if j < i {
        forall nb | nb in Neighbours(edges, sc.order[j])
          ensures exists k :: 0 <= k < |sc'.order| && sc'.order[k] == nb && sc'.from[k] <= j
        {
          assert Covers(sc, j, Neighbours(edges, sc.order[j]));
          var k :| 0 <= k < |sc.order| && sc.order[k] == nb && sc.from[k] <= j;
          assert sc'.order[k] == nb && sc'.from[k] <= j;
        }
      }
    }
  }

  // How far the loop has got after `i` turns: it stops at the end of the queue.
  function Reached(sc: Scan, i: nat): nat {
    if i < |sc.order| then i else |sc.order|
  }

  lemma {:induction false} ScanToScans(edges: Edges, root: Id, i: nat)
    ensures Scanned(edges, root, ScanTo(edges, root, i), Reached(ScanTo(edges, root, i), i))
  {
    if i == 0 {
      RootIsVertex(edges, root);
    } else {
      ScanToScans(edges, root, i - 1);
      NextScan(edges, root, ScanTo(edges, root, i - 1), i - 1);
    }
  }

  lemma NextScan(edges: Edges, root: Id, sc: Scan, i: nat)
    requires Scanned(edges, root, sc, Reached(sc, i))
    ensures var next := if i < |sc.order| then Visit(sc, i, Neighbours(edges, sc.order[i])) else sc;
            Scanned(edges, root, next, Reached(next, i + 1))
  {
    if i < |sc.order| { VisitScans(edges, root, sc, i); }
  }

  lemma {:induction false} ScanToStable(edges: Edges, root: Id, i: nat, j: nat)
    requires i <= j && |ScanTo(edges, root, i).order| <= i
    ensures ScanTo(edges, root, j) == ScanTo(edges, root, i)
  {
    if i < j {
      ScanToStable(edges, root, i, j - 1);
    }
  }

  lemma BfsComplete(edges: Edges, root: Id)
    ensures Scanned(edges, root, BfsOf(edges, root), |BfsOf(edges, root).order|)
  {
    ScanToScans(edges, root, Bound(edges));
    QueueFits(edges, root, BfsOf(edges, root));
  }

  /** What the builders' loops need at position `i`: the bound on the queue, and the end condition. */
  lemma LoopFacts(edges: Edges, root: Id, i: nat)
    requires i <= |ScanTo(edges, root, i).order|
    ensures var sc := ScanTo(edges, root, i);
            && Rooted(sc) && |sc.order| <= Bound(edges)
            && (i == |sc.order| ==> sc == BfsOf(edges, root))
  {
    var sc := ScanTo(edges, root, i);
    ScanToScans(edges, root, i);
    QueueFits(edges, root, sc);
    if i == |sc.order| {
      ScanToStable(edges, root, i, Bound(edges));
    }
  }

  // Every stage of the inner loop at position `i` leaves a rooted queue that only grows.
  ghost predicate Grows(sc: Scan, i: nat, nbs: seq<Id>) {
    forall n :: 0 <= n <= |nbs| ==> Rooted(Visit(sc, i, nbs[..n])) && sc.order <= Visit(sc, i, nbs[..n]).order
  }

  lemma VisitGrows(edges: Edges, root: Id, i: nat)
    requires i < |ScanTo(edges, root, i).order|
    ensures var sc := ScanTo(edges, root, i);
            var nbs := Neighbours(edges, sc.order[i]);
            && Grows(sc, i, nbs) && sc.order <= Visit(sc, i, nbs).order
            && Visit(sc, i, nbs) == ScanTo(edges, root, i + 1)
  {
    var sc := ScanTo(edges, root, i);
    var nbs := Neighbours(edges, sc.order[i]);
    ScanToScans(edges, root, i);
    forall n | 0 <= n <= |nbs| ensures Rooted(Visit(sc, i, nbs[..n])) && sc.order <= Visit(sc, i, nbs[..n]).order {
      VisitKeeps(edges, root, sc, i, nbs[..n]);
    }
    assert nbs[..|nbs|] == nbs;
  }

  // -------------------------------------------------- shortest-path spanning

  ghost function Depth(sc: Scan, k: nat): nat
    requires Rooted(sc) && k < |sc.order|
  {
    if k == 0 then 0 else 1 + Depth(sc, sc.from[k])
  }

  /** The tree path from the root. */
  ghost function PathTo(sc: Scan, k: nat): (p: seq<Id>)
    requires Rooted(sc) && k < |sc.order|
    ensures |p| == Depth(sc, k) + 1 && p[|p| - 1] == sc.order[k] && p[0] == sc.order[0]
  {
    if k == 0 then [sc.order[0]] else PathTo(sc, sc.from[k]) + [sc.order[k]]
  }

  lemma {:induction false} PathIsWalk(edges: Edges, root: Id, sc: Scan, k: nat)
    requires WellFormed(edges, root, sc) && k < |sc.order|
    ensures WalkFromTo(edges, root, sc.order[k], PathTo(sc, k))
  {
    if k > 0 {
      PathIsWalk(edges, root, sc, sc.from[k]);
    }
  }

  lemma {:induction false} DepthMonotone(sc: Scan, j: nat, k: nat)
    requires Rooted(sc) && InQueueOrder(sc) && j <= k < |sc.order|
    ensures Depth(sc, j) <= Depth(sc, k)
    decreases k
  {
    if j > 0 {
      DepthMonotone(sc, sc.from[j], sc.from[k]);
    }
  }

  /** A neighbour of a vertex at depth d is at depth d + 1 or less. */
  lemma NeighbourDepth(edges: Edges, root: Id, sc: Scan, j: nat, nb: Id) returns (k: nat)
    requires Scanned(edges, root, sc, |sc.order|) && j < |sc.order|
    requires nb in Neighbours(edges, sc.order[j])
    ensures k < |sc.order| && sc.order[k] == nb && Depth(sc, k) <= Depth(sc, j) + 1
  {
    assert Covers(sc, j, Neighbours(edges, sc.order[j]));
    k :| 0 <= k < |sc.order| && sc.order[k] == nb && sc.from[k] <= j;
    if k > 0 { DepthMonotone(sc, sc.from[k], j); }
  }

  lemma WalkFront(edges: Edges, w: seq<Id>)
    requires Walk(edges, w) && |w| > 1
    ensures var n := |w| - 1;
            Walk(edges, w[..n]) && w[..n][0] == w[0] && w[..n][n - 1] == w[n - 1] && w[n] in Neighbours(edges, w[n - 1])
  {}

  /** Every walk from the root ends at a queued vertex, no deeper than the walk is long. */
  lemma {:induction false} WalkBoundsDepth(edges: Edges, root: Id, sc: Scan, w: seq<Id>) returns (k: nat)
    requires Scanned(edges, root, sc, |sc.order|)
    requires Walk(edges, w) && w[0] == root
    ensures k < |sc.order| && sc.order[k] == w[|w| - 1] && Depth(sc, k) + 1 <= |w|
    decreases |w|
  {
    if |w| == 1 {
      k := 0;
    } else {
      var n := |w| - 1;
      WalkFront(edges, w);
      var j := WalkBoundsDepth(edges, root, sc, w[..n]);
      k := NeighbourDepth(edges, root, sc, j, w[n]);
    }
  }

  /** Each vertex reachable from the root occurs once, and no other; each but the root has one
      parent, earlier in the queue, joined to it by an overlay edge. */
  lemma SpanningTree(edges: Edges, root: Id)
    ensures Rooted(BfsOf(edges, root)) && BfsOf(edges, root).order[0] == root
    ensures NoDup(BfsOf(edges, root).order)
    ensures forall v :: v in BfsOf(edges, root).order <==> exists w :: WalkFromTo(edges, root, v, w)
    ensures var sc := BfsOf(edges, root); forall k {:trigger sc.from[k]} :: 0 < k < |sc.order| ==>
              (sc.order[sc.from[k]], sc.order[k]) in edges || (sc.order[k], sc.order[sc.from[k]]) in edges
  {
    var sc := BfsOf(edges, root);
    BfsComplete(edges, root);
    forall v | v in sc.order ensures exists w :: WalkFromTo(edges, root, v, w) {
      var k :| 0 <= k < |sc.order| && sc.order[k] == v;
      PathIsWalk(edges, root, sc, k);
    }
    forall v, w | WalkFromTo(edges, root, v, w) ensures v in sc.order {
      var k := WalkBoundsDepth(edges, root, sc, w);
    }
    forall k | 0 < k < |sc.order|
      ensures (sc.order[sc.from[k]], sc.order[k]) in edges || (sc.order[k], sc.order[sc.from[k]]) in edges
    {
      NeighboursAreEdges(edges, sc.order[sc.from[k]], sc.order[k]);
    }
  }

  /** Tree depth is graph distance: the tree path is a walk, and no walk is shorter. */
  lemma DepthIsDistance(edges: Edges, root: Id, k: nat)
    requires k < |BfsOf(edges, root).order|
    ensures Rooted(BfsOf(edges, root))
    ensures var sc := BfsOf(edges, root);
            && WalkFromTo(edges, root, sc.order[k], PathTo(sc, k))
            && forall w :: WalkFromTo(edges, root, sc.order[k], w) ==> |PathTo(sc, k)| <= |w|
  {
    var sc := BfsOf(edges, root);
    BfsComplete(edges, root);
    PathIsWalk(edges, root, sc, k);
    forall w | WalkFromTo(edges, root, sc.order[k], w) ensures |PathTo(sc, k)| <= |w| {
      var j := WalkBoundsDepth(edges, root, sc, w);
      assert j == k;
    }
  }
}
