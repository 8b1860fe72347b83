/** The whole system over the tree that is built from an overlay. */
module BuiltCluster {
  import opened Collections
  import FairLock
  import opened Overlay
  import opened Records
  import opened ScatterGather
  import TreeBuilders
  import opened OverlayTree
  import opened LeaderNode
  import ClientSession
  import opened ShardFiles
  import opened Cluster
  import opened ClusterTheorems
  import CL = ClusterLiveness
  import CF = ClusterFinish
  import opened Pipeline

  ghost predicate AllWholeRecords(shards: Net) {
    forall v :: v in shards ==> |shards[v]| % RecordSize == 0
  }

  // The node keeps its shard for good, up or down.
  ghost predicate RunsOver(kids: seq<Tree>, net: Net, shards: Net, es: seq<Event>, c: System) {
    Reaches(kids, net, es, c) && FromShards(net, shards) && FixedShards(es, shards)
  }

  /** For any overlay: the tree built from it has every node joined to the root, and no other, exactly
      once below the root; and in every state that the system can reach over that tree, cache, pages and
      sessions hold the concatenation of those nodes' shards, whole or up to the session's offset. */
  lemma OverlayEndToEnd(edges: Edges, root: Id, children: map<Id, seq<Id>>, shards: Net) returns (t: Tree)
    requires TreeBuilders.GivesKids(children, BfsOf(edges, root)) && AllWholeRecords(shards)
    ensures t.id == root && Matches(children, t) && OncePerVertex(edges, root, t.kids)
    ensures forall net, es, c :: RunsOver(t.kids, net, shards, es, c) ==>
            Delivers(c, Shards(shards, PreorderAll(t.kids)))
  {
    t := BelowTheRoot(edges, root, children);
    forall net, es, c | RunsOver(t.kids, net, shards, es, c) ensures Delivers(c, Shards(shards, PreorderAll(t.kids))) {
      EndToEnd(t.kids, net, shards, es, c);
    }
  }

  ghost predicate GetsRows(c: System, kids: seq<Tree>, rows: seq<Record>) {
    var all := DealAll(rows, Numbers(PreorderAll(kids)));
    AllRowsBelow(rows, kids, all) &&
    forall s :: s in c.sessions && c.sessions[s].start == 0 ==> HasDecoded(c.sessions[s], all)
  }

  /** Rows to client over any overlay that joins A to I: whatever its links, every finished client
      loop has decoded exactly the rows dealt to B to I, and every other the first of them. */
  lemma OverlayRowsReachClient(edges: Edges, children: map<Id, seq<Id>>, shards: Net,
                               rows: seq<Record>, files: seq<bytes>, counts: seq<nat>, samples: seq<bytes>)
    returns (t: Tree)
    requires JoinsAll(edges) && TreeBuilders.GivesKids(children, BfsOf(edges, "A"))
    requires Deployed(shards, files, samples) && Dealt(rows, files, counts) && |rows| >= NodeCount
    ensures t.id == "A" && Matches(children, t) && CoversBelowLeader(t.kids)
    ensures forall net, es, c :: RunsOver(t.kids, net, shards, es, c) ==> GetsRows(c, t.kids, rows)
  {
    t := BuiltTreeCovers(edges, children);
    forall net, es, c | RunsOver(t.kids, net, shards, es, c) ensures GetsRows(c, t.kids, rows) {
      DeployedIsStocked(shards, rows, files, counts, samples);
      RowsServed(shards, rows, t.kids);
      ServesAllBelow(shards, rows, t.kids);
      forall s | s in c.sessions && c.sessions[s].start == 0
        ensures HasDecoded(c.sessions[s], DealAll(rows, Numbers(PreorderAll(t.kids))))
      {
        RowsReachClient(t.kids, net, shards, es, c, s, rows, files, counts, samples);
      }
    }
  }

  lemma ServesAllBelow(shards: Net, rows: seq<Record>, kids: seq<Tree>)
    requires AllStocked(shards, rows) && CoversBelowLeader(kids) && |rows| >= NodeCount
    ensures AllRowsBelow(rows, kids, DealAll(rows, Numbers(PreorderAll(kids))))
  {
    RowsServed(shards, rows, kids);
  }

  // ------------------------------------------------------- everybody finishes

  lemma IdOccurs(nodes: seq<Tree>, v: Id)
    ensures v in Ids(nodes) <==> Count(nodes, v) > 0
  {
    assert v in Ids(nodes) <==> v in multiset(Ids(nodes));
  }

  ghost predicate LoopsFinish(kids: seq<Tree>, net: Net, shards: Net, es: seq<Event>, c: System) {
    forall s :: s in c.sessions && c.sessions[s].start == 0 && c.sessions[s].progress.Ongoing? ==>
      (CF.CanFinish(c, s, Shards(shards, PreorderAll(kids)), shards) <==> !CL.Lost(c, s))
  }

  /** For the tree built from any overlay: in every state of a steady run, each unfinished client loop can
      go on to receive the shards of all nodes joined to the root, unless its call is lost already. */
  lemma OverlayLoopsFinish(edges: Edges, root: Id, children: map<Id, seq<Id>>, shards: Net) returns (t: Tree)
    requires TreeBuilders.GivesKids(children, BfsOf(edges, root))
    ensures t.id == root && Matches(children, t) && OncePerVertex(edges, root, t.kids)
    ensures forall net, es, c :: CF.SteadyState(t.kids, net, shards, es, c) ==> LoopsFinish(t.kids, net, shards, es, c)
  {
    t := BelowTheRoot(edges, root, children);
    forall net, es, c | CF.SteadyState(t.kids, net, shards, es, c) ensures LoopsFinish(t.kids, net, shards, es, c) {
      forall s | s in c.sessions && c.sessions[s].start == 0 && c.sessions[s].progress.Ongoing?
        ensures CF.CanFinish(c, s, Shards(shards, PreorderAll(t.kids)), shards) <==> !CL.Lost(c, s)
      {
        CF.LoopFinishesIff(t.kids, net, shards, es, c, s);
      }
    }
  }

  lemma DeployedHasShards(shards: Net, rows: seq<Record>, kids: seq<Tree>)
    requires AllStocked(shards, rows) && CoversBelowLeader(kids)
    ensures CL.ShardsFor(kids, shards) && AllWholeRecords(shards)
  {
    forall v | v in Ids(PreorderAll(kids)) ensures v in shards {
      IdOccurs(PreorderAll(kids), v);
      assert Number(v) < NodeCount;
    }
  }

  /** At any time of any run of client loops over the nodes as deployed, a new client loop can start and
      come to have decoded exactly the rows dealt to B to I, whatever chunk it asks for. */
  lemma RowsReachAnybody(kids: seq<Tree>, net: Net, shards: Net, es: seq<Event>, c: System,
                         rows: seq<Record>, files: seq<bytes>, counts: seq<nat>, samples: seq<bytes>,
                         s: Sid, cli: FairLock.Client, req: ReqId, requested: int)
    returns (fs: seq<Event>, d: System)
    requires RunsOverAll(kids, net, shards, es, c)
    requires Deployed(shards, files, samples) && Dealt(rows, files, counts) && |rows| >= NodeCount
    requires CoversBelowLeader(kids)
    requires s !in c.sessions && forall u :: u in c.sessions ==> c.sessions[u].req != req
    ensures Exec(c, fs, d) && s in d.sessions && d.sessions[s].requested == requested
    ensures d.sessions[s].progress.Finished? && AllRowsBelow(rows, kids, DecodeAll(d.sessions[s].got))
  {
    DeployedIsStocked(shards, rows, files, counts, samples);
    DeployedHasShards(shards, rows, kids);
    RowsServed(shards, rows, kids);
    fs, d := CF.NewLoopFinishes(kids, net, shards, es, c, s, cli, req, requested);
  }

  // Any run in which no session starts at a negative offset.
  ghost predicate RunsOverAll(kids: seq<Tree>, net: Net, shards: Net, es: seq<Event>, c: System) {
    Exec(Boot(kids, net), es, c) && Proper(es) && FromShards(net, shards) && FixedShards(es, shards)
  }

  // ----------------------------------------------- what a client loop relies on

  // The shared state, as a handler thread sees it.
  function WorldOf(c: System): World {
    World(c.q.lock, c.cache, c.net)
  }

  lemma {:induction false} NetStaysFixed(c: System, es: seq<Event>, c': System, shards: Net)
    requires Calm(c, es, c') && FromShards(c.net, shards) && FixedShards(es, shards)
    ensures FromShards(c'.net, shards)
    decreases es
  {
    if es != [] {
      assert FixedShards(es[1..], shards);
      NetStays(c, es[0], shards);
      NetStaysFixed(Do(c, es[0]), es[1..], c', shards);
    }
  }

  /** Every reachable state is one that the client loop may be given: what the loop assumes of others is
      what the system guarantees. */
  lemma ReachedIsTrusted(
    kids: seq<Tree>, net: Net, shards: Net, es: seq<Event>, c: System, cli: FairLock.Client, req: ReqId)
    requires RunsOver(kids, net, shards, es, c) && AllWholeRecords(shards)
    ensures ClientSession.Trusted(WorldOf(c), cli, req, c.q.lock.DebtOf(cli), Shards(shards, PreorderAll(kids)), shards)
  {
    EndToEnd(kids, net, shards, es, c);
    NetStaysFixed(Boot(kids, net), es, c, shards);
  }
}
