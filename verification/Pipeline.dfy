/** From the rows of the data set to the records a client holds. */
module Pipeline {
  import opened Collections
  import opened Overlay
  import opened Records
  import opened ScatterGather
  import TreeBuilders
  import opened OverlayTree
  import TeamNode
  import Paging
  import opened ShardFiles
  import opened Cluster
  import opened ClusterTheorems

  // ------------------------------------------------------- shards on the nodes

  /** The shard a node loads: "A" to "I" are zero to eight; any other name has none. */
  function Number(v: Id): nat {
    if |v| == 1 && 'A' <= v[0] <= 'I' then (v[0] as int - 'A' as int) as nat else NodeCount
  }

  function Numbers(nodes: seq<Tree>): seq<nat> {
    seq(|nodes|, i requires 0 <= i < |nodes| => Number(nodes[i].id))
  }

  const FallbackRecords := 10

  /** What a node holds after start-up: its trimmed shard file, or sample records if that is empty. */
  function NodeShard(file: bytes, sample: bytes): bytes {
    if TeamNode.Trimmed(file) == [] then sample else TeamNode.Trimmed(file)
  }

  // Each of the nine nodes has loaded its own file.
  ghost predicate Deployed(shards: Net, files: seq<bytes>, samples: seq<bytes>) {
    && |files| == |samples| == NodeCount
    && (forall k :: 0 <= k < NodeCount ==> |samples[k]| == FallbackRecords * RecordSize)
    && (forall v :: v in shards <==> Number(v) < NodeCount)
    && (forall v :: v in shards ==> shards[v] == NodeShard(files[Number(v)], samples[Number(v)]))
  }

  // The node with number `k` serves the rows dealt to it, or its samples if there are none.
  ghost predicate Stocked(shard: bytes, rows: seq<Record>, k: nat) {
    && |shard| % RecordSize == 0
    && if k < |rows| then DecodeAll(shard) == Deal(rows, k)
       else Deal(rows, k) == [] && |DecodeAll(shard)| == FallbackRecords
  }

  ghost predicate AllStocked(shards: Net, rows: seq<Record>) {
    && (forall v :: v in shards <==> Number(v) < NodeCount)
    && forall v :: v in shards ==> Stocked(shards[v], rows, Number(v))
  }

  lemma LoadsWhole(rs: seq<Record>, sample: bytes)
    requires AllFit(rs)
    ensures NodeShard(EncodeAll(rs), sample) == if rs == [] then sample else EncodeAll(rs)
  {
    assert TeamNode.Trimmed(EncodeAll(rs)) == EncodeAll(rs);
  }

  /** Dealing the rows and starting the nodes stocks every node. */
  lemma DeployedIsStocked(shards: Net, rows: seq<Record>, files: seq<bytes>, counts: seq<nat>, samples: seq<bytes>)
    requires Deployed(shards, files, samples) && Dealt(rows, files, counts)
    ensures AllStocked(shards, rows)
  {
    forall v | v in shards ensures Stocked(shards[v], rows, Number(v)) {
      var k := Number(v);
      DealSize(rows, k);
      LoadsWhole(Deal(rows, k), samples[k]);
      DecodeEncodeAll(Deal(rows, k));
    }
  }

  ghost predicate Named(nodes: seq<Tree>) {
    forall i :: 0 <= i < |nodes| ==> Number(nodes[i].id) < NodeCount
  }

  // Every node of the list was dealt a row.
  ghost predicate HaveRows(nodes: seq<Tree>, rows: seq<Record>) {
    forall i :: 0 <= i < |nodes| ==> Number(nodes[i].id) < |rows|
  }

  lemma NodeStep(shards: Net, rows: seq<Record>, nodes: seq<Tree>)
    requires AllStocked(shards, rows) && nodes != [] && Number(nodes[0].id) < NodeCount
    ensures var shard, k, rest := shards[nodes[0].id], Number(nodes[0].id), nodes[1..];
            && Stocked(shard, rows, k)
            && DecodeAll(Shards(shards, nodes)) == DecodeAll(shard) + DecodeAll(Shards(shards, rest))
            && DealAll(rows, Numbers(nodes)) == Deal(rows, k) + DealAll(rows, Numbers(rest))
  {
    DecodeAppend(shards[nodes[0].id], Shards(shards, nodes[1..]));
    assert Numbers(nodes)[0] == Number(nodes[0].id) && Numbers(nodes)[1..] == Numbers(nodes[1..]);
  }

  /** Nodes that all have rows serve exactly their dealt rows, node after node. */
  lemma {:induction false} ServesDealtRows(shards: Net, rows: seq<Record>, nodes: seq<Tree>)
    requires AllStocked(shards, rows) && Named(nodes) && HaveRows(nodes, rows)
    ensures DecodeAll(Shards(shards, nodes)) == DealAll(rows, Numbers(nodes))
  {
    if nodes != [] {
      NodeStep(shards, rows, nodes);
      ServesDealtRows(shards, rows, nodes[1..]);
    }
  }

  // How many of the nodes were dealt no row.
  function RowlessNodes(nodes: seq<Tree>, rows: seq<Record>): nat {
    if nodes == [] then 0
    else (if Number(nodes[0].id) < |rows| then 0 else 1) + RowlessNodes(nodes[1..], rows)
  }

  lemma {:induction false} NoneRowless(nodes: seq<Tree>, rows: seq<Record>)
    ensures RowlessNodes(nodes, rows) == 0 <==> HaveRows(nodes, rows)
  {
    if nodes != [] {
      NoneRowless(nodes[1..], rows);
      assert HaveRows(nodes, rows) <==> Number(nodes[0].id) < |rows| && HaveRows(nodes[1..], rows);
    }
  }

  /** Each node without rows adds exactly its ten sample records to what is served. */
  lemma {:induction false} SamplesAreExtra(shards: Net, rows: seq<Record>, nodes: seq<Tree>)
    requires AllStocked(shards, rows) && Named(nodes)
    ensures |DecodeAll(Shards(shards, nodes))| ==
            |DealAll(rows, Numbers(nodes))| + FallbackRecords * RowlessNodes(nodes, rows)
  {
    if nodes != [] {
      NodeStep(shards, rows, nodes);
      SamplesAreExtra(shards, rows, nodes[1..]);
    }
  }

  /** Distinct nodes serve exactly the rows dealt to them if and only if each was dealt a row. */
  lemma ServedExactly(shards: Net, rows: seq<Record>, nodes: seq<Tree>)
    requires AllStocked(shards, rows) && Named(nodes) && NoDup(Numbers(nodes))
    ensures multiset(DecodeAll(Shards(shards, nodes))) == multiset(RowsOf(rows, Numbers(nodes))) <==>
            HaveRows(nodes, rows)
  {
    var served, dealt := DecodeAll(Shards(shards, nodes)), RowsOf(rows, Numbers(nodes));
    NothingLost(rows, Numbers(nodes));
    SameSize(DealAll(rows, Numbers(nodes)), dealt);
    SamplesAreExtra(shards, rows, nodes);
    NoneRowless(nodes, rows);
    if HaveRows(nodes, rows) {
      ServesDealtRows(shards, rows, nodes);
    }
    if multiset(served) == multiset(dealt) {
      SameSize(served, dealt);
    }
  }

  lemma SameSize(a: seq<Record>, b: seq<Record>)
    requires multiset(a) == multiset(b)
    ensures |a| == |b|
  {
    assert |multiset(a)| == |a| && |multiset(b)| == |b|;
  }

  // ------------------------------------------------------- a tree over all nodes

  /** Below the leader, B to I occur once each and nothing else occurs. */
  ghost predicate CoversBelowLeader(kids: seq<Tree>) {
    forall v :: Count(PreorderAll(kids), v) == if 0 < Number(v) < NodeCount then 1 else 0
  }

  // The overlay joins exactly the nodes A to I.
  ghost predicate JoinsAll(edges: Edges) {
    forall v :: Number(v) < NodeCount <==> exists w :: WalkFromTo(edges, "A", v, w)
  }

  /** Whatever links such an overlay has, the tree built from it with leader A covers the others. */
  lemma BuiltTreeCovers(edges: Edges, children: map<Id, seq<Id>>) returns (t: Tree)
    requires JoinsAll(edges) && TreeBuilders.GivesKids(children, BfsOf(edges, "A"))
    ensures t.id == "A" && Matches(children, t) && CoversBelowLeader(t.kids)
  {
    t := BuiltTree(edges, "A", children);
    forall v ensures Count(PreorderAll(t.kids), v) == if 0 < Number(v) < NodeCount then 1 else 0 {
      CountAppend([t], PreorderAll(t.kids), v);
      assert Count(Preorder(t), v) == if Number(v) < NodeCount then 1 else 0;
      assert Ids([t]) == ["A"];
      assert Count([t], v) == if v == "A" then 1 else 0;
      if Number(v) == 0 { SameName(v, "A"); }
    }
  }

  lemma SameName(v: Id, w: Id)
    requires Number(v) == Number(w) < NodeCount
    ensures v == w
  {
    assert v == [v[0]] && w == [w[0]];
  }

  lemma CountsTwice(ids: seq<Id>, i: nat, j: nat)
    requires i < j < |ids| && ids[i] == ids[j]
    ensures multiset(ids)[ids[i]] >= 2
  {
    assert ids == ids[..j] + ids[j..];
    assert ids[..j][i] == ids[i] && ids[j..][0] == ids[i];
    assert multiset(ids) == multiset(ids[..j]) + multiset(ids[j..]);
    assert ids[i] in multiset(ids[..j]) && ids[i] in multiset(ids[j..]);
  }

  lemma CoversNumbers(kids: seq<Tree>)
    requires CoversBelowLeader(kids)
    ensures Named(PreorderAll(kids)) && NoDup(Numbers(PreorderAll(kids)))
    ensures forall k: nat :: k in Numbers(PreorderAll(kids)) <==> 0 < k < NodeCount
  {
    var nodes := PreorderAll(kids);
    var ids := Ids(nodes);
    forall i | 0 <= i < |nodes| ensures 0 < Number(nodes[i].id) < NodeCount {
      assert ids[i] in multiset(ids);
    }
    forall i, j | 0 <= i < j < |nodes| ensures Numbers(nodes)[i] != Numbers(nodes)[j] {
      if Number(ids[i]) == Number(ids[j]) {
        SameName(ids[i], ids[j]);
        CountsTwice(ids, i, j);
      }
    }
    forall k: nat | 0 < k < NodeCount ensures k in Numbers(nodes) {
      var v := [('A' as int + k) as char];
      assert Number(v) == k && v in multiset(ids);
      var i :| 0 <= i < |ids| && ids[i] == v;
      assert Numbers(nodes)[i] == k;
    }
  }

  // ---------------------------------------------------- from rows to the client

  /** The records of the rows whose index is not a multiple of nine: what lies below the leader. */
  ghost predicate AllRowsBelow(rows: seq<Record>, kids: seq<Tree>, records: seq<Record>) {
    && records == DealAll(rows, Numbers(PreorderAll(kids)))
    && multiset(records) == multiset(RowsOf(rows, Numbers(PreorderAll(kids))))
    && |records| == |rows| - (|rows| + NodeCount - 1) / NodeCount
  }

  /** With nine rows or more, and only then, B to I together serve exactly the rows dealt to them. */
  lemma RowsServed(shards: Net, rows: seq<Record>, kids: seq<Tree>)
    requires AllStocked(shards, rows) && CoversBelowLeader(kids)
    ensures AllRowsBelow(rows, kids, DecodeAll(Shards(shards, PreorderAll(kids)))) <==> |rows| >= NodeCount
  {
    var nodes := PreorderAll(kids);
    CoversNumbers(kids);
    ServedExactly(shards, rows, nodes);
    RowsOfSize(rows, Numbers(nodes));
    assert HaveRows(nodes, rows) <==> |rows| >= NodeCount by {
      var last: nat := NodeCount - 1;
      assert last in Numbers(nodes);
      var i :| 0 <= i < |Numbers(nodes)| && Numbers(nodes)[i] == NodeCount - 1;
      assert Number(nodes[i].id) == NodeCount - 1;
    }
    if |rows| >= NodeCount {
      ServesDealtRows(shards, rows, nodes);
      SameSize(DecodeAll(Shards(shards, nodes)), RowsOf(rows, Numbers(nodes)));
    }
  }

  lemma DecodePrefix(full: bytes, offset: nat)
    requires offset <= |full| && offset % RecordSize == 0
    ensures DecodeAll(full[..offset]) == DecodeAll(full)[..offset / RecordSize]
  {
    assert full == full[..offset] + full[offset..];
    DecodeAppend(full[..offset], full[offset..]);
  }

  // A finished session has decoded all the records, in the exact page count of calls; an unfinished
  // one the records before its offset.
  ghost predicate HasDecoded(me: Session, all: seq<Record>) {
    if me.progress.Finished? then
      DecodeAll(me.got) == all && me.calls == Paging.PageCount(RecordSize * |all|, me.requested)
    else
      && 0 <= me.offset <= RecordSize * |all| && me.offset % RecordSize == 0
      && DecodeAll(me.got) == all[..me.offset / RecordSize]
  }

  lemma BytesToRecords(me: Session, full: bytes)
    requires me.start == 0 && |full| % RecordSize == 0 && Prefix(me, full) && Counted(me, |full|)
    ensures HasDecoded(me, DecodeAll(full))
  {
    if !me.progress.Finished? { DecodePrefix(full, me.offset); }
  }

  /** Rows to client: over every interleaving, a finished session has decoded exactly the rows of B
      to I, in the exact page count of calls; an unfinished one has the first of them. */
  lemma RowsReachClient(
    kids: seq<Tree>, net: Net, shards: Net, es: seq<Event>, c: System, s: Sid,
    rows: seq<Record>, files: seq<bytes>, counts: seq<nat>, samples: seq<bytes>)
    requires Reaches(kids, net, es, c) && FromShards(net, shards) && FixedShards(es, shards)
    requires s in c.sessions && c.sessions[s].start == 0
    requires Deployed(shards, files, samples) && Dealt(rows, files, counts) && CoversBelowLeader(kids) &&
             |rows| >= NodeCount
    ensures var all := DealAll(rows, Numbers(PreorderAll(kids)));
            AllRowsBelow(rows, kids, all) && HasDecoded(c.sessions[s], all)
  {
    DeployedIsStocked(shards, rows, files, counts, samples);
    assert AllStocked(shards, rows);
    RowsServed(shards, rows, kids);
    ShardsAligned(shards, PreorderAll(kids));
    EndToEnd(kids, net, shards, es, c);
    BytesToRecords(c.sessions[s], Shards(shards, PreorderAll(kids)));
  }
}
