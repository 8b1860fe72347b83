/** The shipped configuration: its child lists name a tree over all nine nodes. */
module NodesConfig {
  import opened Collections
  import opened Overlay
  import opened ScatterGather
  import opened OverlayTree
  import opened Records
  import opened ShardFiles
  import TeamNode
  import opened Pipeline

  /** The child lists of the shipped configuration, and the tree they name. */
  const ConfiguredChildren: map<Id, seq<Id>> := map["A" := ["B", "H", "G", "I"], "B" := ["C", "D", "E"], "E" := ["F"]]

  function Leaf(v: Id): Tree { Tree(v, []) }

  const ConfiguredE := Tree("E", [Leaf("F")])
  const ConfiguredB := Tree("B", [Leaf("C"), Leaf("D"), ConfiguredE])
  const ConfiguredTree := Tree("A", [ConfiguredB, Leaf("H"), Leaf("G"), Leaf("I")])

  const ConfiguredOrder: seq<Id> := ["B", "C", "D", "E", "F", "H", "G", "I"]

  lemma OrderDistinct()
    ensures NoDup(ConfiguredOrder)
  {
    var ids := ConfiguredOrder;
    assert Number(ids[0]) == 1 && Number(ids[1]) == 2 && Number(ids[2]) == 3 && Number(ids[3]) == 4;
    assert Number(ids[4]) == 5 && Number(ids[5]) == 7 && Number(ids[6]) == 6 && Number(ids[7]) == 8;
    forall i, j | 0 <= i < j < |ids| ensures Number(ids[i]) != Number(ids[j]) {}
  }

  lemma NamesBelow(v: Id)
    ensures 0 < Number(v) < NodeCount <==> v in ConfiguredOrder
  {
    if 0 < Number(v) < NodeCount { assert v == [v[0]]; }
  }

  lemma {:induction false} CountOnce(ids: seq<Id>, v: Id)
    requires NoDup(ids)
    ensures multiset(ids)[v] == if v in ids then 1 else 0
  {
    if ids != [] {
      var n := |ids| - 1;
      CountOnce(ids[..n], v);
      assert ids == ids[..n] + [ids[n]];
    }
  }

  lemma LeafMatches(v: Id)
    requires v !in ConfiguredChildren
    ensures Matches(ConfiguredChildren, Leaf(v)) && Preorder(Leaf(v)) == [Leaf(v)]
  {}

  lemma PreorderStep(t: Tree, ts: seq<Tree>)
    ensures PreorderAll([t] + ts) == Preorder(t) + PreorderAll(ts)
  {
    assert ([t] + ts)[1..] == ts;
  }

  lemma BelowB()
    ensures Matches(ConfiguredChildren, ConfiguredB)
    ensures Ids(Preorder(ConfiguredB)) == ["B", "C", "D", "E", "F"]
  {
    LeafMatches("C");
    LeafMatches("D");
    LeafMatches("F");
    PreorderStep(Leaf("F"), []);
    PreorderStep(Leaf("C"), [Leaf("D"), ConfiguredE]);
    PreorderStep(Leaf("D"), [ConfiguredE]);
    PreorderStep(ConfiguredE, []);
    assert ConfiguredB.kids == [Leaf("C")] + ([Leaf("D")] + [ConfiguredE]);
    assert Ids(ConfiguredE.kids) == ["F"];
    assert Matches(ConfiguredChildren, ConfiguredE);
    assert Ids(ConfiguredB.kids) == ["C", "D", "E"];
  }

  lemma ConfiguredMatches()
    ensures Matches(ConfiguredChildren, ConfiguredTree)
  {
    BelowB();
    LeafMatches("H");
    LeafMatches("G");
    LeafMatches("I");
    assert Ids(ConfiguredTree.kids) == ["B", "H", "G", "I"];
  }

  lemma LeavesLast()
    ensures PreorderAll([Leaf("H"), Leaf("G"), Leaf("I")]) == [Leaf("H"), Leaf("G"), Leaf("I")]
  {
    assert [Leaf("H"), Leaf("G"), Leaf("I")] == [Leaf("H")] + ([Leaf("G")] + [Leaf("I")]);
    PreorderStep(Leaf("H"), [Leaf("G"), Leaf("I")]);
    PreorderStep(Leaf("G"), [Leaf("I")]);
    PreorderStep(Leaf("I"), []);
    LeafMatches("H");
    LeafMatches("G");
    LeafMatches("I");
  }

  lemma ConfiguredPreorder()
    ensures Ids(PreorderAll(ConfiguredTree.kids)) == ConfiguredOrder
  {
    BelowB();
    LeavesLast();
    assert ConfiguredTree.kids == [ConfiguredB] + [Leaf("H"), Leaf("G"), Leaf("I")];
    PreorderStep(ConfiguredB, [Leaf("H"), Leaf("G"), Leaf("I")]);
    IdsAppend(Preorder(ConfiguredB), [Leaf("H"), Leaf("G"), Leaf("I")]);
    assert Ids([Leaf("H"), Leaf("G"), Leaf("I")]) == ["H", "G", "I"];
  }

  lemma IdsAppend(a: seq<Tree>, b: seq<Tree>)
    ensures Ids(a + b) == Ids(a) + Ids(b)
  {}

  /** The shipped child lists name a finite tree over all nodes, read in the order B C D E F H G I. */
  lemma ConfiguredTreeCovers()
    ensures Matches(ConfiguredChildren, ConfiguredTree)
    ensures Ids(PreorderAll(ConfiguredTree.kids)) == ConfiguredOrder
    ensures CoversBelowLeader(ConfiguredTree.kids)
  {
    ConfiguredMatches();
    ConfiguredPreorder();
    OrderDistinct();
    forall v ensures Count(PreorderAll(ConfiguredTree.kids), v) == if 0 < Number(v) < NodeCount then 1 else 0 {
      NamesBelow(v);
      CountOnce(ConfiguredOrder, v);
    }
  }

  // ------------------------------------------------------- too small a table

  const SmallTable: seq<Record> := [Record(1, [0, 0, 0, 0], [0, 0, 0, 0], 10001, 2020, 1, 1)]

  function SmallFiles(): seq<bytes> {
    seq(NodeCount, k requires 0 <= k < NodeCount => if k == 0 then Encode(SmallTable[0]) else [])
  }

  function SampleBlock(): (b: bytes)
    ensures |b| == FallbackRecords * RecordSize
  {
    seq(FallbackRecords * RecordSize, _ => 0)
  }

  function NodeNames(): set<Id> {
    (set v | v in ConfiguredOrder) + {"A"}
  }

  function SmallCounts(): seq<nat> {
    seq(NodeCount, k => if k == 0 then 1 else 0)
  }

  function Samples(): seq<bytes> {
    seq(NodeCount, _ => SampleBlock())
  }

  function SmallShards(): Net {
    map v | v in NodeNames() :: if v == "A" then Encode(SmallTable[0]) else SampleBlock()
  }

  lemma SmallTableDealt()
    ensures Dealt(SmallTable, SmallFiles(), SmallCounts())
  {
    var row := SmallTable[0];
    assert SmallTable[..0] == [];
    assert EncodeAll([]) == [];
    assert EncodeAll([row]) == Encode(row) by { assert [row][..0] == []; }
    forall k: nat | k < NodeCount ensures Deal(SmallTable, k) == if k == 0 then [row] else [] {
      assert Deal([], k) == [];
    }
  }

  lemma NamesAreNumbered(v: Id)
    ensures v in NodeNames() <==> Number(v) < NodeCount
    ensures Number(v) == 0 ==> v == "A"
  {
    NamesBelow(v);
    if Number(v) == 0 { SameName(v, "A"); }
  }

  lemma SmallTableDeployed()
    ensures Deployed(SmallShards(), SmallFiles(), Samples())
  {
    var row := SmallTable[0];
    assert TeamNode.Trimmed(Encode(row)) == Encode(row);
    forall v ensures v in SmallShards() <==> Number(v) < NodeCount { NamesAreNumbered(v); }
    forall v | v in SmallShards()
      ensures SmallShards()[v] == NodeShard(SmallFiles()[Number(v)], SampleBlock())
    {
      NamesAreNumbered(v);
    }
  }

  lemma OneRowServesSamples(shards: Net, rows: seq<Record>, kids: seq<Tree>)
    requires AllStocked(shards, rows) && CoversBelowLeader(kids) && |rows| == 1
    ensures var nodes := PreorderAll(kids);
            RowsOf(rows, Numbers(nodes)) == [] && |DecodeAll(Shards(shards, nodes))| == FallbackRecords * |nodes|
  {
    var nodes := PreorderAll(kids);
    CoversNumbers(kids);
    RowsOfSize(rows, Numbers(nodes));
    DealtSize(rows, Numbers(nodes));
    SamplesAreExtra(shards, rows, nodes);
    RowlessBelow(kids, rows);
  }

  lemma DealtSize(rows: seq<Record>, ks: seq<nat>)
    requires NoDup(ks)
    ensures |DealAll(rows, ks)| == |RowsOf(rows, ks)|
  {
    NothingLost(rows, ks);
    SameSize(DealAll(rows, ks), RowsOf(rows, ks));
  }

  lemma RowlessBelow(kids: seq<Tree>, rows: seq<Record>)
    requires CoversBelowLeader(kids) && |rows| == 1
    ensures RowlessNodes(PreorderAll(kids), rows) == |PreorderAll(kids)|
  {
    var nodes := PreorderAll(kids);
    CoversNumbers(kids);
    forall i | 0 <= i < |nodes| ensures Number(nodes[i].id) >= |rows| {
      assert Numbers(nodes)[i] in Numbers(nodes);
    }
    AllRowless(nodes, rows);
  }

  lemma SmallTableStocked()
    ensures AllStocked(SmallShards(), SmallTable)
  {
    SmallTableDealt();
    SmallTableDeployed();
    DeployedIsStocked(SmallShards(), SmallTable, SmallFiles(), SmallCounts(), Samples());
  }

  /** A table of one row, dealt and deployed: the row goes to the leader, and a client of the shipped
      tree that should get no record gets eighty sample records. */
  lemma SmallTableServesSamples()
    ensures Dealt(SmallTable, SmallFiles(), SmallCounts()) && Deployed(SmallShards(), SmallFiles(), Samples())
    ensures RowsOf(SmallTable, Numbers(PreorderAll(ConfiguredTree.kids))) == []
    ensures |DecodeAll(Shards(SmallShards(), PreorderAll(ConfiguredTree.kids)))| == 80
  {
    SmallTableDealt();
    SmallTableDeployed();
    SmallTableStocked();
    ConfiguredTreeCovers();
    OneRowServesSamples(SmallShards(), SmallTable, ConfiguredTree.kids);
    assert |PreorderAll(ConfiguredTree.kids)| == |ConfiguredOrder|;
  }

  lemma {:induction false} AllRowless(nodes: seq<Tree>, rows: seq<Record>)
    requires forall i :: 0 <= i < |nodes| ==> Number(nodes[i].id) >= |rows|
    ensures RowlessNodes(nodes, rows) == |nodes|
  {
    if nodes != [] { AllRowless(nodes[1..], rows); }
  }
}
