/** Fetching over a tree of shard nodes: the reply as a function of which nodes answer. */
module ScatterGather {
  import opened Collections
  import opened Overlay
  import opened Records

  datatype Tree = Tree(id: Id, kids: seq<Tree>)

  /** The nodes that answer when called, with the shard each holds. Any other node is down. */
  type Net = map<Id, bytes>

  datatype Segment = Segment(payload: bytes, last: bool)

  datatype Reply = Ok(segments: seq<Segment>) | Failed(message: string)

  const Unreachable := "failed to connect to all addresses"

  function MarkLast(segs: seq<Segment>): seq<Segment> {
    if segs == [] then segs else segs[|segs| - 1 := segs[|segs| - 1].(last := true)]
  }

  /** The name of the failing child, a colon, a space, and the child's own message. */
  function Labelled(id: Id, message: string): (s: string)
    ensures s != "" && |s| == |id| + 2 + |message| && id <= s
    ensures s[|id|] == ':' && s[|id| + 1] == ' ' && s[|id| + 2..] == message
  {
    id + ": " + message
  }

  /** A node's reply when its children are called one after another and the first failure ends the call. */
  function Fetch(net: Net, t: Tree): Reply
    decreases t, 1
  {
    if t.id !in net then Failed(Unreachable)
    else
      match FetchAll(net, t.kids)
      case Failed(m) => Failed("child fetch failed: " + m)
      case Ok(segs) => Ok(MarkLast([Segment(net[t.id], false)] + segs))
  }

  function FetchAll(net: Net, ts: seq<Tree>): Reply
    decreases ts, 0
  {
    if ts == [] then Ok([])
    else
      match Fetch(net, ts[0])
      case Failed(m) => Failed(Labelled(ts[0].id, m))
      case Ok(segs) =>
        match FetchAll(net, ts[1..])
        case Failed(m) => Failed(m)
        case Ok(more) => Ok(segs + more)
  }

  // --------------------------------------------------- the tree in preorder

  function Preorder(t: Tree): seq<Tree>
    decreases t, 1
  {
    [t] + PreorderAll(t.kids)
  }

  function PreorderAll(ts: seq<Tree>): seq<Tree>
    decreases ts, 0
  {
    if ts == [] then [] else Preorder(ts[0]) + PreorderAll(ts[1..])
  }

  function Ids(ts: seq<Tree>): seq<Id> {
    seq(|ts|, i requires 0 <= i < |ts| => ts[i].id)
  }

  ghost predicate AllUp(net: Net, ts: seq<Tree>) {
    forall i :: 0 <= i < |ts| ==> ts[i].id in net
  }

  /** What a complete reply looks like: one segment a node, in preorder, `last` exactly on leaves. */
  ghost predicate Complete(net: Net, nodes: seq<Tree>, segs: seq<Segment>) {
    && |segs| == |nodes|
    && AllUp(net, nodes)
    && forall i :: 0 <= i < |segs| ==> segs[i] == Segment(net[nodes[i].id], nodes[i].kids == [])
  }

  lemma NodeUp(net: Net, t: Tree)
    ensures AllUp(net, Preorder(t)) <==> t.id in net && AllUp(net, PreorderAll(t.kids))
  {
    AllUpAppend(net, [t], PreorderAll(t.kids));
    assert AllUp(net, [t]) <==> [t][0].id in net;
  }

  lemma AllUpAppend(net: Net, a: seq<Tree>, b: seq<Tree>)
    ensures AllUp(net, a + b) <==> AllUp(net, a) && AllUp(net, b)
  {
    assert forall i :: 0 <= i < |a| ==> (a + b)[i] == a[i];
    assert forall i :: 0 <= i < |b| ==> (a + b)[|a| + i] == b[i];
  }

  lemma NodeOk(net: Net, t: Tree)
    ensures Fetch(net, t).Ok? <==> t.id in net && FetchAll(net, t.kids).Ok?
  {}

  /** A fetch succeeds iff every node of the subtree is up, and then the reply is complete. */
  lemma {:induction false} FetchShape(net: Net, t: Tree)
    ensures Fetch(net, t).Ok? <==> AllUp(net, Preorder(t))
    ensures Fetch(net, t).Ok? ==> Complete(net, Preorder(t), Fetch(net, t).segments)
    decreases t, 1
  {
    FetchAllShape(net, t.kids);
    NodeUp(net, t);
    NodeOk(net, t);
    if Fetch(net, t).Ok? { NodeComplete(net, t); }
  }

  lemma NodeComplete(net: Net, t: Tree)
    requires t.id in net && FetchAll(net, t.kids).Ok?
    requires Complete(net, PreorderAll(t.kids), FetchAll(net, t.kids).segments)
    ensures Complete(net, Preorder(t), Fetch(net, t).segments)
  {
    var segs := FetchAll(net, t.kids).segments;
    if t.kids == [] {
      assert Fetch(net, t).segments == [Segment(net[t.id], true)];
    } else {
      LastIsLeaf(t.kids);
      assert segs[|segs| - 1].last;
      assert Fetch(net, t).segments == [Segment(net[t.id], false)] + segs;
    }
  }

  lemma {:induction false} FetchAllShape(net: Net, ts: seq<Tree>)
    ensures FetchAll(net, ts).Ok? <==> AllUp(net, PreorderAll(ts))
    ensures FetchAll(net, ts).Ok? ==> Complete(net, PreorderAll(ts), FetchAll(net, ts).segments)
    decreases ts, 0
  {
    if ts != [] {
      FetchShape(net, ts[0]);
      FetchAllShape(net, ts[1..]);
      AllUpAppend(net, Preorder(ts[0]), PreorderAll(ts[1..]));
    }
  }

  lemma {:induction false} LastIsLeaf(ts: seq<Tree>)
    requires ts != []
    ensures var p := PreorderAll(ts); p != [] && p[|p| - 1].kids == []
    decreases ts, 0
  {
    if |ts| > 1 {
      LastIsLeaf(ts[1..]);
    } else {
      assert PreorderAll(ts[1..]) == [];
      LastOfTree(ts[0]);
    }
  }

  lemma {:induction false} LastOfTree(t: Tree)
    ensures var p := Preorder(t); p[|p| - 1].kids == []
    decreases t, 1
  {
    if t.kids != [] { LastIsLeaf(t.kids); }
  }

  // ---------------------------------------------------- which failure is seen

  /** The paths from the root of `t` to each of its nodes, in preorder. */
  function Paths(t: Tree): seq<seq<Id>>
    decreases t, 1
  {
    [[t.id]] + Under(t.id, PathsAll(t.kids))
  }

  function PathsAll(ts: seq<Tree>): seq<seq<Id>>
    decreases ts, 0
  {
    if ts == [] then [] else Paths(ts[0]) + PathsAll(ts[1..])
  }

  function Under(id: Id, ps: seq<seq<Id>>): seq<seq<Id>> {
    seq(|ps|, i requires 0 <= i < |ps| => [id] + ps[i])
  }

  // The node at the end of the path is down and all its ancestors are up.
  predicate Broken(net: Net, p: seq<Id>) {
    p != [] && p[|p| - 1] !in net && forall i :: 0 <= i < |p| - 1 ==> p[i] in net
  }

  predicate FirstBroken(net: Net, ps: seq<seq<Id>>, i: nat) {
    i < |ps| && Broken(net, ps[i]) && forall j :: 0 <= j < i ==> !Broken(net, ps[j])
  }

  /** The nested error text for a path below the node that answers. */
  function Spelled(p: seq<Id>): string {
    if p == [] then "failed to connect to all addresses"
    else "child fetch failed: " + p[0] + ": " + Spelled(p[1..])
  }

  lemma LabelText(id: Id, message: string)
    ensures Labelled(id, message) == id + ": " + message
    ensures "child fetch failed: " + Labelled(id, message) == "child fetch failed: " + id + ": " + message
  {
    var s := Labelled(id, message);
    assert s == s[..|id|] + [s[|id|]] + [s[|id| + 1]] + s[|id| + 2..];
    assert "child fetch failed: " + (id + ": " + message) == "child fetch failed: " + id + ": " + message;
  }

  lemma {:induction false} PathsStart(ts: seq<Tree>)
    ensures forall i :: 0 <= i < |PathsAll(ts)| ==> PathsAll(ts)[i] != []
    decreases ts
  {
    if ts != [] { PathsStart(ts[1..]); }
  }

  lemma PathsStartAt(t: Tree)
    ensures forall i :: 0 <= i < |Paths(t)| ==> Paths(t)[i] != [] && Paths(t)[i][0] == t.id
  {}

  /** The reply is an error exactly when some path is broken, and the error then spells the first
      broken path in preorder, from the first node below the root on. */
  lemma {:induction false} FirstFailure(net: Net, t: Tree) returns (i: nat)
    ensures Fetch(net, t).Failed? ==>
              FirstBroken(net, Paths(t), i) && Fetch(net, t).message == Spelled(Paths(t)[i][1..])
    ensures Fetch(net, t).Ok? ==> forall j :: 0 <= j < |Paths(t)| ==> !Broken(net, Paths(t)[j])
    decreases t, 1
  {
    i := 0;
    if t.id in net {
      var k := FirstFailureAmong(net, t.kids);
      PathsUnder(net, t);
      if FetchAll(net, t.kids).Failed? {
        i := k + 1;
        var p := PathsAll(t.kids)[k];
        assert Paths(t)[i][1..] == p;
        LabelText(p[0], Spelled(p[1..]));
      }
    } else {
      assert Paths(t)[0] == [t.id];
    }
  }

  /** Below a node that is up, a path is broken exactly when its remainder is. */
  lemma PathsUnder(net: Net, t: Tree)
    requires t.id in net
    ensures var ps, qs := PathsAll(t.kids), Paths(t);
            && |qs| == |ps| + 1
            && (forall j :: 0 < j < |qs| ==>
                  qs[j] == [t.id] + ps[j - 1] && (Broken(net, qs[j]) <==> Broken(net, ps[j - 1])))
            && !Broken(net, qs[0])
  {
    var ps, qs := PathsAll(t.kids), Paths(t);
    PathsStart(t.kids);
    forall j | 0 < j < |qs| ensures qs[j] == [t.id] + ps[j - 1] && (Broken(net, qs[j]) <==> Broken(net, ps[j - 1])) {
      UnderBroken(net, t.id, ps[j - 1]);
    }
  }

  lemma UnderBroken(net: Net, id: Id, p: seq<Id>)
    requires id in net && p != []
    ensures Broken(net, [id] + p) <==> Broken(net, p)
  {
    var q := [id] + p;
    assert forall i :: 0 <= i < |p| ==> q[i + 1] == p[i];
    if Broken(net, p) {
      forall i | 0 <= i < |q| - 1 ensures q[i] in net { if i > 0 { assert q[i] == p[i - 1]; } }
    }
  }

  lemma FrontPath(net: Net, a: seq<seq<Id>>, b: seq<seq<Id>>, i: nat)
    requires FirstBroken(net, a, i)
    ensures FirstBroken(net, a + b, i) && (a + b)[i] == a[i]
  {}

  lemma LaterPath(net: Net, a: seq<seq<Id>>, b: seq<seq<Id>>, k: nat)
    requires FirstBroken(net, b, k) && forall j :: 0 <= j < |a| ==> !Broken(net, a[j])
    ensures FirstBroken(net, a + b, |a| + k) && (a + b)[|a| + k] == b[k]
  {}

  lemma NoPath(net: Net, a: seq<seq<Id>>, b: seq<seq<Id>>)
    requires forall j :: 0 <= j < |a| ==> !Broken(net, a[j])
    requires forall j :: 0 <= j < |b| ==> !Broken(net, b[j])
    ensures forall j :: 0 <= j < |a + b| ==> !Broken(net, (a + b)[j])
  {}

  lemma {:induction false} FirstFailureAmong(net: Net, ts: seq<Tree>) returns (i: nat)
    ensures FetchAll(net, ts).Failed? ==>
              FirstBroken(net, PathsAll(ts), i) && PathsAll(ts)[i] != [] &&
              FetchAll(net, ts).message == PathsAll(ts)[i][0] + ": " + Spelled(PathsAll(ts)[i][1..])
    ensures FetchAll(net, ts).Ok? ==> forall j :: 0 <= j < |PathsAll(ts)| ==> !Broken(net, PathsAll(ts)[j])
    decreases ts, 0
  {
    if ts == [] {
      i := 0;
    } else {
      var a, b := Paths(ts[0]), PathsAll(ts[1..]);
      i := FirstFailure(net, ts[0]);
      if Fetch(net, ts[0]).Failed? {
        PathsStartAt(ts[0]);
        LabelText(ts[0].id, Fetch(net, ts[0]).message);
        FrontPath(net, a, b, i);
      } else {
        var k := FirstFailureAmong(net, ts[1..]);
        i := |a| + k;
        if FetchAll(net, ts[1..]).Failed? { LaterPath(net, a, b, k); } else { NoPath(net, a, b); }
      }
    }
  }

  /** The i-th path ends at the i-th node in preorder. */
  lemma {:induction false} PathsFollowPreorder(t: Tree)
    ensures |Paths(t)| == |Preorder(t)|
    ensures forall i :: 0 <= i < |Paths(t)| ==> Paths(t)[i] != [] && Paths(t)[i][|Paths(t)[i]| - 1] == Preorder(t)[i].id
    decreases t, 1
  {
    PathsAllFollowPreorder(t.kids);
  }

  lemma {:induction false} PathsAllFollowPreorder(ts: seq<Tree>)
    ensures var ps, ns := PathsAll(ts), PreorderAll(ts);
            |ps| == |ns| && forall i :: 0 <= i < |ps| ==> ps[i] != [] && ps[i][|ps[i]| - 1] == ns[i].id
    decreases ts, 0
  {
    if ts != [] {
      PathsFollowPreorder(ts[0]);
      PathsAllFollowPreorder(ts[1..]);
    }
  }

  // ------------------------------------------------------ the leader's gather

  datatype Outcome = Payload(data: bytes) | Error(message: string)

  function Joined(segs: seq<Segment>): bytes {
    if segs == [] then [] else segs[0].payload + Joined(segs[1..])
  }

  function Gather(net: Net, kids: seq<Tree>): Outcome {
    match FetchAll(net, kids)
    case Failed(m) => Error("child fetch failed: " + m)
    case Ok(segs) => Payload(Joined(segs))
  }

  /** The shards of the listed nodes, one after another. */
  function Shards(net: Net, nodes: seq<Tree>): bytes {
    if nodes == [] then []
    else (if nodes[0].id in net then net[nodes[0].id] else []) + Shards(net, nodes[1..])
  }

  /** Shards lie in the order of the nodes, and one node's shard is what that node holds. */
  lemma {:induction false} ShardsAppend(net: Net, a: seq<Tree>, b: seq<Tree>)
    ensures Shards(net, a + b) == Shards(net, a) + Shards(net, b)
    ensures |a| == 1 && a[0].id in net ==> Shards(net, a) == net[a[0].id]
    decreases |a|
  {
    if a == [] {
      assert a + b == b;
    } else {
      assert (a + b)[1..] == a[1..] + b;
      ShardsAppend(net, a[1..], b);
    }
  }

  lemma {:induction false} JoinedIsShards(net: Net, nodes: seq<Tree>, segs: seq<Segment>)
    requires Complete(net, nodes, segs)
    ensures Joined(segs) == Shards(net, nodes)
  {
    if nodes != [] {
      JoinedIsShards(net, nodes[1..], segs[1..]);
    }
  }

  lemma {:induction false} JoinedAppend(a: seq<Segment>, b: seq<Segment>)
    ensures Joined(a + b) == Joined(a) + Joined(b)
  {
    if a == [] {
      assert a + b == b;
    } else {
      assert (a + b)[1..] == a[1..] + b;
      JoinedAppend(a[1..], b);
    }
  }

  /** All or nothing: the gather yields the preorder concatenation of every shard, or an error when
      some node is down. */
  lemma GatherAllOrNothing(net: Net, kids: seq<Tree>)
    ensures Gather(net, kids).Payload? <==> AllUp(net, PreorderAll(kids))
    ensures Gather(net, kids).Payload? ==> Gather(net, kids).data == Shards(net, PreorderAll(kids))
  {
    FetchAllShape(net, kids);
    if FetchAll(net, kids).Ok? {
      JoinedIsShards(net, PreorderAll(kids), FetchAll(net, kids).segments);
    }
  }

  lemma {:induction false} ShardsAgree(net: Net, net': Net, nodes: seq<Tree>)
    requires AllUp(net, nodes) && AllUp(net', nodes)
    requires forall i :: 0 <= i < |nodes| ==> net[nodes[i].id] == net'[nodes[i].id]
    ensures Shards(net, nodes) == Shards(net', nodes)
  {
    if nodes != [] {
      assert nodes[0].id in net && net[nodes[0].id] == net'[nodes[0].id];
      ShardsAgree(net, net', nodes[1..]);
    }
  }

  predicate FromShards(net: Net, shards: Net) {
    forall v :: v in net ==> v in shards && net[v] == shards[v]
  }

  /** Whichever nodes are up, a gather that succeeds yields the full data. */
  lemma GatherIsFull(net: Net, shards: Net, kids: seq<Tree>)
    requires FromShards(net, shards)
    ensures Gather(net, kids).Payload? ==> Gather(net, kids).data == Shards(shards, PreorderAll(kids))
  {
    var nodes := PreorderAll(kids);
    GatherAllOrNothing(net, kids);
    if AllUp(net, nodes) {
      forall i | 0 <= i < |nodes| ensures nodes[i].id in shards && net[nodes[i].id] == shards[nodes[i].id] {
        assert nodes[i].id in net;
      }
      ShardsAgree(net, shards, nodes);
    }
  }

  // Trimming leaves whole records on every node.
  lemma {:induction false} ShardsAligned(net: Net, nodes: seq<Tree>)
    requires forall v :: v in net ==> |net[v]| % RecordSize == 0
    ensures |Shards(net, nodes)| % RecordSize == 0
  {
    if nodes != [] { ShardsAligned(net, nodes[1..]); }
  }
}
