/** How the order of the edge list decides parents and siblings in the breadth-first tree. */
module EdgeOrder {
  import opened Collections
  import opened Overlay
  import opened TreeBuilders

  // ------------------------------------------------- neighbours in edge order

  lemma LastEdge(es: Edges, e: (Id, Id), v: Id) returns (added: seq<Id>)
    ensures added == (if e.0 == v then [e.1] else []) + (if e.1 == v then [e.0] else [])
    ensures Neighbours(es + [e], v) == Neighbours(es, v) + added
  {
    added := (if e.0 == v then [e.1] else []) + (if e.1 == v then [e.0] else []);
    assert (es + [e])[..|es|] == es;
  }

  lemma Regroup(a: seq<Id>, b: seq<Id>, c: seq<Id>)
    ensures (a + b) + c == a + (b + c)
  {}

  /** Later edges add their neighbours at the end. */
  lemma {:induction false} NeighboursAppend(es: Edges, fs: Edges, v: Id)
    ensures Neighbours(es + fs, v) == Neighbours(es, v) + Neighbours(fs, v)
    decreases |fs|
  {
    if fs == [] {
      assert es + fs == es;
    } else {
      var n := |fs| - 1;
      var front, e := fs[..n], fs[n];
      assert fs == front + [e] && es + fs == (es + front) + [e];
      NeighboursAppend(es, front, v);
      var added := LastEdge(es + front, e, v);
      var same := LastEdge(front, e, v);
      Regroup(Neighbours(es, v), Neighbours(front, v), added);
    }
  }

  /** One edge adds its other end at each end, and a self-loop adds its node twice. */
  lemma OneEdge(a: Id, b: Id, v: Id)
    ensures a != b ==> Neighbours([(a, b)], a) == [b] && Neighbours([(a, b)], b) == [a]
    ensures Neighbours([(a, a)], a) == [a, a]
    ensures v != a && v != b ==> Neighbours([(a, b)], v) == []
  {
    assert [(a, b)][..0] == [] && [(a, a)][..0] == [];
  }

  predicate Joins(e: (Id, Id), v: Id, w: Id) {
    e == (v, w) || e == (w, v)
  }

  // -------------------------------------------------------- first occurrences

  /** Whatever the list says of `b`, it has said `a` before. */
  ghost predicate FirstBefore(nbs: seq<Id>, a: Id, b: Id) {
    forall j :: 0 <= j < |nbs| && nbs[j] == b ==> exists i :: 0 <= i < j && nbs[i] == a
  }

  // Both were queued from position `i`, one before the other.
  predicate Siblings(sc: Scan, i: nat, c: nat, d: nat)
    requires |sc.order| == |sc.from|
  {
    0 < c < d < |sc.order| && sc.from[c] == i && sc.from[d] == i
  }

  ghost predicate SiblingsFollow(sc: Scan, i: nat, nbs: seq<Id>) {
    |sc.order| == |sc.from| &&
    forall c: nat, d: nat :: Siblings(sc, i, c, d) ==> sc.order[c] in nbs && FirstBefore(nbs, sc.order[c], sc.order[d])
  }

  lemma FirstBeforeLonger(nbs: seq<Id>, nb: Id, a: Id, b: Id)
    requires FirstBefore(nbs, a, b) && a in nbs
    ensures FirstBefore(nbs + [nb], a, b)
  {
    var all := nbs + [nb];
    forall j | 0 <= j < |all| && all[j] == b ensures exists i :: 0 <= i < j && all[i] == a {
      if j < |nbs| {
        var i :| 0 <= i < j && nbs[i] == a;
        assert all[i] == a;
      } else {
        var i :| 0 <= i < |nbs| && nbs[i] == a;
        assert all[i] == a;
      }
    }
  }

  lemma NewcomerLast(nbs: seq<Id>, a: Id, b: Id)
    requires a in nbs && b !in nbs
    ensures FirstBefore(nbs + [b], a, b)
  {
    var i :| 0 <= i < |nbs| && nbs[i] == a;
    assert (nbs + [b])[i] == a;
  }

  // Every vertex queued from position `i` is in the list.
  ghost predicate QueuedAreListed(sc: Scan, i: nat, nbs: seq<Id>) {
    |sc.order| == |sc.from| && forall c :: 0 < c < |sc.order| && sc.from[c] == i ==> sc.order[c] in nbs
  }

  // Every vertex of the list is queued.
  ghost predicate ListedAreQueued(sc: Scan, nbs: seq<Id>) {
    forall nb :: nb in nbs ==> nb in sc.order
  }

  lemma VisitOne(sc: Scan, i: nat, nbs: seq<Id>, nb: Id)
    requires SiblingsFollow(sc, i, nbs) && QueuedAreListed(sc, i, nbs) && ListedAreQueued(sc, nbs)
    ensures var sc' := if nb in sc.order then sc else Scan(sc.order + [nb], sc.from + [i]);
            SiblingsFollow(sc', i, nbs + [nb]) && QueuedAreListed(sc', i, nbs + [nb]) &&
              ListedAreQueued(sc', nbs + [nb])
  {
    var sc' := if nb in sc.order then sc else Scan(sc.order + [nb], sc.from + [i]);
    forall c: nat, d: nat | Siblings(sc', i, c, d)
      ensures sc'.order[c] in nbs + [nb] && FirstBefore(nbs + [nb], sc'.order[c], sc'.order[d])
    {
      if d < |sc.order| {
        assert Siblings(sc, i, c, d);
        FirstBeforeLonger(nbs, nb, sc.order[c], sc.order[d]);
      } else {
        assert sc.from[c] == i && sc.order[c] in nbs;
        NewcomerLast(nbs, sc.order[c], nb);
      }
    }
  }

  lemma {:induction false} VisitFollows(sc: Scan, i: nat, nbs: seq<Id>)
    requires |sc.order| == |sc.from| && forall c :: 0 < c < |sc.order| ==> sc.from[c] != i
    ensures var sc' := Visit(sc, i, nbs);
            SiblingsFollow(sc', i, nbs) && QueuedAreListed(sc', i, nbs) && ListedAreQueued(sc', nbs)
    decreases |nbs|
  {
    if nbs == [] {
    } else {
      var front, nb := nbs[..|nbs| - 1], nbs[|nbs| - 1];
      VisitFollows(sc, i, front);
      VisitOne(Visit(sc, i, front), i, front, nb);
      assert front + [nb] == nbs;
    }
  }

  // ------------------------------------------------------- the whole search

  // Siblings below the first `n` positions follow the neighbour lists.
  ghost predicate AllFollow(edges: Edges, sc: Scan, n: nat) {
    |sc.order| == |sc.from| && n <= |sc.order| &&
    forall i :: 0 <= i < n ==> SiblingsFollow(sc, i, Neighbours(edges, sc.order[i]))
  }

  // A visit from a later position leaves earlier siblings alone.
  lemma {:induction false} VisitElsewhere(sc: Scan, i: nat, nbs: seq<Id>, k: nat, c: nat, d: nat)
    requires |sc.order| == |sc.from| && k != i
    ensures var sc' := Visit(sc, i, nbs);
            && |sc'.order| == |sc'.from| && sc.order <= sc'.order && sc.from <= sc'.from
            && (Siblings(sc', k, c, d) ==> Siblings(sc, k, c, d))
    decreases |nbs|
  {
    if nbs == [] {
    } else {
      VisitElsewhere(sc, i, nbs[..|nbs| - 1], k, c, d);
    }
  }

  lemma StillFollow(edges: Edges, sc: Scan, i: nat, k: nat)
    requires AllFollow(edges, sc, i) && k < i < |sc.order|
    ensures var sc' := Visit(sc, i, Neighbours(edges, sc.order[i]));
            k < |sc'.order| && SiblingsFollow(sc', k, Neighbours(edges, sc'.order[k]))
  {
    var nbs := Neighbours(edges, sc.order[i]);
    var sc' := Visit(sc, i, nbs);
    VisitElsewhere(sc, i, nbs, k, 0, 0);
    assert SiblingsFollow(sc, k, Neighbours(edges, sc.order[k]));
    forall c: nat, d: nat | Siblings(sc', k, c, d)
      ensures sc'.order[c] in Neighbours(edges, sc'.order[k])
      ensures FirstBefore(Neighbours(edges, sc'.order[k]), sc'.order[c], sc'.order[d])
    {
      VisitElsewhere(sc, i, nbs, k, c, d);
    }
  }

  lemma NextFollows(edges: Edges, root: Id, sc: Scan, i: nat)
    requires Scanned(edges, root, sc, i) && AllFollow(edges, sc, i) && i < |sc.order|
    requires forall c :: 0 < c < |sc.order| ==> sc.from[c] < i
    ensures var sc' := Visit(sc, i, Neighbours(edges, sc.order[i]));
            AllFollow(edges, sc', i + 1) && forall c :: 0 < c < |sc'.order| ==> sc'.from[c] < i + 1
  {
    var sc' := Visit(sc, i, Neighbours(edges, sc.order[i]));
    VisitScans(edges, root, sc, i);
    VisitFollows(sc, i, Neighbours(edges, sc.order[i]));
    VisitElsewhere(sc, i, Neighbours(edges, sc.order[i]), i + 1, 0, 0);
    forall k | 0 <= k < i + 1 ensures SiblingsFollow(sc', k, Neighbours(edges, sc'.order[k])) {
      if k < i { StillFollow(edges, sc, i, k); }
    }
    VisitKeeps(edges, root, sc, i, Neighbours(edges, sc.order[i]));
    forall c | 0 < c < |sc'.order| ensures sc'.from[c] < i + 1 { assert QueuedBy(sc', i); }
  }

  lemma {:induction false} ScanFollows(edges: Edges, root: Id, i: nat)
    ensures var sc := ScanTo(edges, root, i);
            && AllFollow(edges, sc, Reached(sc, i))
            && forall c :: 0 < c < |sc.order| ==> sc.from[c] < Reached(sc, i)
  {
    if i == 0 {
    } else {
      var sc := ScanTo(edges, root, i - 1);
      ScanFollows(edges, root, i - 1);
      ScanToScans(edges, root, i - 1);
      if i - 1 < |sc.order| { NextFollows(edges, root, sc, i - 1); }
    }
  }

  /** Of all queued neighbours of a vertex the earliest one is its parent. */
  lemma ParentIsEarliest(edges: Edges, root: Id, c: nat, j: nat)
    requires 0 < c < |BfsOf(edges, root).order| && j < |BfsOf(edges, root).order|
    requires BfsOf(edges, root).order[c] in Neighbours(edges, BfsOf(edges, root).order[j])
    ensures |BfsOf(edges, root).from| == |BfsOf(edges, root).order| && BfsOf(edges, root).from[c] <= j
  {
    var sc := BfsOf(edges, root);
    BfsComplete(edges, root);
    assert Covers(sc, j, Neighbours(edges, sc.order[j]));
    var k :| 0 <= k < |sc.order| && sc.order[k] == sc.order[c] && sc.from[k] <= j;
    assert k == c;
  }

  // ------------------------------------------------- from neighbours to edges

  lemma OccursIn(es: Edges, fs: Edges, v: Id, w: Id) returns (j: nat)
    requires w in Neighbours(es, v)
    ensures Neighbours(es, v) <= Neighbours(es + fs, v)
    ensures j < |Neighbours(es, v)| && Neighbours(es + fs, v)[j] == w
  {
    NeighboursAppend(es, fs, v);
    j :| 0 <= j < |Neighbours(es, v)| && Neighbours(es, v)[j] == w;
  }

  /** If the neighbour list names `a` before `b`, then so does the edge list. */
  lemma EdgesName(edges: Edges, v: Id, a: Id, b: Id, j: nat) returns (i: nat)
    requires FirstBefore(Neighbours(edges, v), a, b) && j < |edges| && Joins(edges[j], v, b)
    ensures i <= j && Joins(edges[i], v, a)
  {
    var es, fs := edges[..j + 1], edges[j + 1..];
    assert es + fs == edges && es[j] == edges[j];
    NeighboursAreEdges(es, v, b);
    var q := OccursIn(es, fs, v, b);
    var p :| 0 <= p < q && Neighbours(edges, v)[p] == a;
    assert Neighbours(es, v)[p] == a;
    NeighboursAreEdges(es, v, a);
    i :| 0 <= i < |es| && Joins(es[i], v, a);
  }

  // --------------------------------------------------------- the child lists

  lemma {:induction false} KidsAt(sc: Scan, v: Id, n: nat, x: nat) returns (c: nat)
    requires Rooted(sc) && n <= |sc.order| && x < |Kids(sc, v, n)|
    ensures 0 < c < n && Kids(sc, v, n)[x] == sc.order[c] && sc.order[sc.from[c]] == v && x == |Kids(sc, v, c)|
  {
    if n > 1 && x < |Kids(sc, v, n - 1)| {
      c := KidsAt(sc, v, n - 1, x);
    } else {
      c := n - 1;
    }
  }

  lemma {:induction false} KidsGrowWith(sc: Scan, v: Id, m: nat, n: nat)
    requires Rooted(sc) && m <= n <= |sc.order|
    ensures |Kids(sc, v, m)| <= |Kids(sc, v, n)|
  {
    if m < n { KidsGrowWith(sc, v, m, n - 1); }
  }

  /** The children of a node come in the order in which the edge list first joins them to it: no edge to a
      later child precedes every edge to an earlier one. */
  lemma ChildListFollowsEdges(edges: Edges, root: Id, children: map<Id, seq<Id>>, v: Id, x: nat, y: nat, j: nat)
    returns (i: nat)
    requires GivesKids(children, BfsOf(edges, root)) && x < y < |Lookup(children, v)|
    requires j < |edges| && Joins(edges[j], v, Lookup(children, v)[y])
    ensures i <= j && Joins(edges[i], v, Lookup(children, v)[x])
  {
    var sc := BfsOf(edges, root);
    BfsComplete(edges, root);
    ScanFollows(edges, root, Bound(edges));
    QueueFits(edges, root, sc);
    var c := KidsAt(sc, v, |sc.order|, x);
    var d := KidsAt(sc, v, |sc.order|, y);
    if d <= c { KidsGrowWith(sc, v, d, c); }
    assert sc.from[c] == sc.from[d];
    assert Siblings(sc, sc.from[c], c, d);
    i := EdgesName(edges, v, sc.order[c], sc.order[d], j);
  }
}
