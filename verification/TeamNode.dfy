/** The two team-node services and the leader's gather, as the programs run them. */
module TeamNode {
  import opened Collections
  import opened Overlay
  import opened Records
  import opened ScatterGather

  /** The whole records of a shard file. */
  function Trimmed(file: bytes): (data: bytes)
    ensures data <= file && |data| % RecordSize == 0 && |file| - |data| < RecordSize
  {
    file[..|file| / RecordSize * RecordSize]
  }

  /** Both loaders drop a trailing partial record. */
  method TrimShard(file: bytes) returns (data: bytes)
    ensures data == Trimmed(file)
  {
    data := file;
    var extra := |data| % RecordSize;
    if extra != 0 { data := data[..|data| - extra]; }
  }

  // Segments collected so far, put before the reply for the children still to come.
  function Prepend(segs: seq<Segment>, r: Reply): Reply {
    if r.Failed? then r else Ok(segs + r.segments)
  }

  lemma PrependTwice(a: seq<Segment>, b: seq<Segment>, r: Reply)
    ensures Prepend(a, Prepend(b, r)) == Prepend(a + b, r)
  {
    if r.Ok? { assert a + (b + r.segments) == (a + b) + r.segments; }
  }

  lemma PrependNothing(a: seq<Segment>)
    ensures Prepend(a, Ok([])) == Ok(a) && Prepend([], Ok(a)) == Ok(a)
  {
    assert a + [] == a && [] + a == a;
  }

  // ------------------------------------------ workers that see a cancelled call

  /** The children from `k` on whose workers did not see the call cancelled. */
  function Kept(ts: seq<Tree>, cancelled: set<nat>, k: nat): seq<Tree>
    requires k <= |ts|
    decreases |ts| - k
  {
    if k == |ts| then []
    else (if k in cancelled then [] else [ts[k]]) + Kept(ts, cancelled, k + 1)
  }

  function Pruned(t: Tree, cancelled: set<nat>): Tree {
    Tree(t.id, Kept(t.kids, cancelled, 0))
  }

  lemma {:induction false} KeptAll(ts: seq<Tree>, cancelled: set<nat>, k: nat)
    requires k <= |ts| && forall i :: i in cancelled ==> |ts| <= i
    ensures Kept(ts, cancelled, k) == ts[k..]
    decreases |ts| - k
  {
    if k < |ts| { KeptAll(ts, cancelled, k + 1); }
  }

  lemma {:induction false} KeptShrinks(net: Net, ts: seq<Tree>, cancelled: set<nat>, k: nat)
    requires k <= |ts| && FetchAll(net, ts[k..]).Ok?
    ensures var r := FetchAll(net, Kept(ts, cancelled, k));
            && r.Ok? && |r.segments| <= |FetchAll(net, ts[k..]).segments|
            && ((exists i :: k <= i < |ts| && i in cancelled) ==> |r.segments| < |FetchAll(net, ts[k..]).segments|)
    decreases |ts| - k
  {
    if k < |ts| {
      FetchSuffix(net, ts, k);
      KeptStep(net, ts, cancelled, k);
      FetchShape(net, ts[k]);
      KeptShrinks(net, ts, cancelled, k + 1);
    }
  }

  predicate NoneCancelled(t: Tree, cancelled: set<nat>) {
    forall i :: i in cancelled ==> |t.kids| <= i
  }

  lemma PruningKeepsOk(net: Net, t: Tree, cancelled: set<nat>)
    requires Fetch(net, t).Ok?
    ensures Fetch(net, Pruned(t, cancelled)).Ok?
    ensures !NoneCancelled(t, cancelled) ==> Fetch(net, Pruned(t, cancelled)) != Fetch(net, t)
  {
    assert t.kids[0..] == t.kids;
    KeptShrinks(net, t.kids, cancelled, 0);
  }

  /** A worker that sees its call cancelled leaves an empty slot and no error. So an OK reply of the C++
      service is the reply the call should have had, be that all segments or an error, exactly when no
      worker saw the call cancelled. */
  lemma CompleteIffNoWorkerCancelled(net: Net, t: Tree, cancelled: set<nat>)
    requires Fetch(net, Pruned(t, cancelled)).Ok?
    ensures Fetch(net, Pruned(t, cancelled)) == Fetch(net, t) <==> NoneCancelled(t, cancelled)
  {
    if NoneCancelled(t, cancelled) {
      KeptAll(t.kids, cancelled, 0);
      assert Pruned(t, cancelled) == t;
    } else if Fetch(net, t).Ok? {
      PruningKeepsOk(net, t, cancelled);
    }
  }

  lemma {:induction false} KeptUp(net: Net, ts: seq<Tree>, cancelled: set<nat>, k: nat)
    requires k <= |ts|
    ensures FetchAll(net, Kept(ts, cancelled, k)).Ok? <==>
            forall i :: k <= i < |ts| && i !in cancelled ==> Fetch(net, ts[i]).Ok?
    decreases |ts| - k
  {
    if k < |ts| {
      KeptStep(net, ts, cancelled, k);
      KeptUp(net, ts, cancelled, k + 1);
    }
  }

  /** The reply is OK exactly when the node is up and so is every subtree whose worker was not cancelled. */
  lemma OkIffKeptUp(net: Net, t: Tree, cancelled: set<nat>)
    ensures Fetch(net, Pruned(t, cancelled)).Ok? <==>
            t.id in net && forall i :: 0 <= i < |t.kids| && i !in cancelled ==> Fetch(net, t.kids[i]).Ok?
  {
    KeptUp(net, t.kids, cancelled, 0);
  }

  /** Node E with its child F down: a cancelled call is answered OK without F, where it should fail. */
  lemma CancelledCallHidesFailure()
    ensures var e, net := Tree("E", [Tree("F", [])]), map["E" := []];
            Fetch(net, e).Failed? && Fetch(net, Pruned(e, {0})) == Ok([Segment([], true)])
  {
    var e, net := Tree("E", [Tree("F", [])]), map["E" := []];
    assert Kept(e.kids, {0}, 0) == [];
    assert Fetch(net, e.kids[0]).Failed?;
    assert FetchAll(net, e.kids).Failed?;
  }

  // ------------------------------------------------------------ the services

  /** A call to a node: an error if it is down, else the reply of the service it runs. */
  method Call(net: Net, t: Tree, python: set<Id>) returns (r: Reply)
    ensures r == Fetch(net, t)
    decreases t, 1
  {
    if t.id !in net {
      r := Failed(Unreachable);
    } else if t.id in python {
      r := PyFetch(net, t, python, |t.kids|);
    } else {
      KeptAll(t.kids, {}, 0);
      assert Pruned(t, {}) == t;
      r := CppFetch(net, t, python, {});
    }
  }

  ghost predicate SlotDone(net: Net, t: Tree, cancelled: bool, segs: seq<Segment>, error: string) {
    if cancelled then segs == [] && error == ""
    else
      match Fetch(net, t)
      case Ok(s) => segs == s && error == ""
      case Failed(m) => error == Labelled(t.id, m)
  }

  /** One worker a child, each writing its own slot; the slots are then read in child order. */
  method CppFetch(net: Net, t: Tree, python: set<Id>, cancelled: set<nat>) returns (r: Reply)
    requires t.id in net
    ensures r == Fetch(net, Pruned(t, cancelled))
    decreases t, 0
  {
    var n := |t.kids|;
    var replies := new seq<Segment>[n](_ => []);
    var errors := new string[n](_ => "");
    RunWorkers(net, t, python, cancelled, replies, errors);

    var failure := FirstError(net, t.kids, cancelled, replies, errors);
    if failure != "" { return Failed("child fetch failed: " + failure); }

    var out := AppendReplies(net, t.kids, cancelled, [Segment(net[t.id], false)], replies, errors);
    if |out| > 0 {
      out := out[|out| - 1 := out[|out| - 1].(last := true)];
    }
    r := Ok(out);
  }

  // The replies before child `k` are `segs`, and the rest is still to be read.
  ghost predicate SoFar(net: Net, ts: seq<Tree>, cancelled: set<nat>, k: nat, segs: seq<Segment>) {
    k <= |ts| && FetchAll(net, Kept(ts, cancelled, 0)) == Prepend(segs, FetchAll(net, Kept(ts, cancelled, k)))
  }

  lemma NothingYet(net: Net, ts: seq<Tree>, cancelled: set<nat>)
    ensures SoFar(net, ts, cancelled, 0, [])
  {
    var r := FetchAll(net, Kept(ts, cancelled, 0));
    if r.Ok? { PrependNothing(r.segments); }
  }

  lemma ThatIsAll(net: Net, ts: seq<Tree>, cancelled: set<nat>, segs: seq<Segment>)
    requires SoFar(net, ts, cancelled, |ts|, segs)
    ensures FetchAll(net, Kept(ts, cancelled, 0)) == Ok(segs)
  {
    PrependNothing(segs);
  }

  lemma OneMoreReply(net: Net, ts: seq<Tree>, cancelled: set<nat>, k: nat, segs: seq<Segment>, reply: seq<Segment>)
    requires k < |ts| && SlotDone(net, ts[k], k in cancelled, reply, "")
    requires SoFar(net, ts, cancelled, k, segs)
    ensures SoFar(net, ts, cancelled, k + 1, segs + reply)
  {
    KeptReply(net, ts, cancelled, k, reply);
    PrependTwice(segs, reply, FetchAll(net, Kept(ts, cancelled, k + 1)));
  }

  method AppendReplies(net: Net, ts: seq<Tree>, cancelled: set<nat>, own: seq<Segment>, replies: array<seq<Segment>>,
                       errors: array<string>)
    returns (out: seq<Segment>)
    requires replies.Length == errors.Length == |ts|
    requires forall i :: 0 <= i < |ts| ==>
             SlotDone(net, ts[i], i in cancelled, replies[i], errors[i]) && errors[i] == ""
    ensures FetchAll(net, Kept(ts, cancelled, 0)).Ok?
    ensures out == own + FetchAll(net, Kept(ts, cancelled, 0)).segments
  {
    out := own;
    ghost var segs: seq<Segment> := [];
    NothingYet(net, ts, cancelled);
    for k := 0 to |ts|
      invariant SoFar(net, ts, cancelled, k, segs) && out == own + segs
    {
      OneMoreReply(net, ts, cancelled, k, segs, replies[k]);
      out := out + replies[k];
      segs := segs + replies[k];
    }
    ThatIsAll(net, ts, cancelled, segs);
  }

  /** The first nonempty error slot, in child order. */
  method FirstError(net: Net, ts: seq<Tree>, cancelled: set<nat>, replies: array<seq<Segment>>, errors: array<string>)
    returns (failure: string)
    requires replies.Length == errors.Length == |ts|
    requires forall i :: 0 <= i < |ts| ==> SlotDone(net, ts[i], i in cancelled, replies[i], errors[i])
    ensures failure != "" ==> FetchAll(net, Kept(ts, cancelled, 0)) == Failed(failure)
    ensures failure == "" ==> forall i :: 0 <= i < |ts| ==> errors[i] == ""
  {
    ghost var acc: seq<Segment> := [];
    NothingYet(net, ts, cancelled);
    for k := 0 to |ts|
      invariant forall i :: 0 <= i < k ==> errors[i] == ""
      invariant SoFar(net, ts, cancelled, k, acc)
    {
      assert SlotDone(net, ts[k], k in cancelled, replies[k], errors[k]);
      if errors[k] != "" {
        KeptStep(net, ts, cancelled, k);
        return errors[k];
      }
      OneMoreReply(net, ts, cancelled, k, acc, replies[k]);
      acc := acc + replies[k];
    }
    failure := "";
  }

  /** An error text is never empty, so an empty slot stands for a reply. */
  lemma NoErrorMeansReply(net: Net, t: Tree, cancelled: bool, segs: seq<Segment>)
    requires SlotDone(net, t, cancelled, segs, "")
    ensures if cancelled then segs == [] else Fetch(net, t) == Ok(segs)
  {}

  lemma KeptStep(net: Net, ts: seq<Tree>, cancelled: set<nat>, k: nat)
    requires k < |ts|
    ensures FetchAll(net, Kept(ts, cancelled, k)) ==
            if k in cancelled then FetchAll(net, Kept(ts, cancelled, k + 1))
            else if Fetch(net, ts[k]).Failed? then Failed(Labelled(ts[k].id, Fetch(net, ts[k]).message))
            else Prepend(Fetch(net, ts[k]).segments, FetchAll(net, Kept(ts, cancelled, k + 1)))
  {
    var rest := Kept(ts, cancelled, k + 1);
    if k in cancelled {
      assert Kept(ts, cancelled, k) == rest;
    } else {
      assert Kept(ts, cancelled, k) == [ts[k]] + rest;
      assert ([ts[k]] + rest)[1..] == rest;
    }
  }

  lemma KeptReply(net: Net, ts: seq<Tree>, cancelled: set<nat>, k: nat, segs: seq<Segment>)
    requires k < |ts| && SlotDone(net, ts[k], k in cancelled, segs, "")
    ensures FetchAll(net, Kept(ts, cancelled, k)) == Prepend(segs, FetchAll(net, Kept(ts, cancelled, k + 1)))
  {
    KeptStep(net, ts, cancelled, k);
    if FetchAll(net, Kept(ts, cancelled, k + 1)).Ok? {
      PrependNothing(FetchAll(net, Kept(ts, cancelled, k + 1)).segments);
    }
  }

  /** The fan-out and the join: any completion order leaves the same slots. */
  method RunWorkers(net: Net, t: Tree, python: set<Id>, cancelled: set<nat>, replies: array<seq<Segment>>,
      errors: array<string>)
    requires replies.Length == errors.Length == |t.kids|
    requires forall i :: 0 <= i < |t.kids| ==> replies[i] == [] && errors[i] == ""
    modifies replies, errors
    ensures forall i :: 0 <= i < |t.kids| ==> SlotDone(net, t.kids[i], i in cancelled, replies[i], errors[i])
    decreases t, 0, 0
  {
    var running: set<nat> := {};
    for i := 0 to |t.kids|
      invariant forall j: nat :: j in running <==> j < i
    {
      running := running + {i};
    }
    while running != {}
      invariant forall i :: i in running ==> i < |t.kids|
      invariant forall i :: 0 <= i < |t.kids| ==>
        if i in running then replies[i] == [] && errors[i] == ""
        else SlotDone(net, t.kids[i], i in cancelled, replies[i], errors[i])
      decreases running
    {
      var i :| i in running;
      if i !in cancelled {
        var status := Call(net, t.kids[i], python);
        if status.Failed? {
          errors[i] := Labelled(t.kids[i].id, status.message);
        } else {
          replies[i] := status.segments;
        }
      }
      running := running - {i};
    }
  }

  lemma FetchSuffix(net: Net, ts: seq<Tree>, k: nat)
    requires k < |ts|
    ensures FetchAll(net, ts[k..]) ==
            if Fetch(net, ts[k]).Failed? then Failed(Labelled(ts[k].id, Fetch(net, ts[k]).message))
            else Prepend(Fetch(net, ts[k]).segments, FetchAll(net, ts[k + 1..]))
  {
    assert ts[k..][0] == ts[k] && ts[k..][1..] == ts[k + 1..];
  }

  /** Children are called one after another; the context is found inactive from child `inactive` on,
      and the call is then aborted rather than answered in part. */
  method PyFetch(net: Net, t: Tree, python: set<Id>, inactive: nat) returns (r: Reply)
    requires t.id in net
    ensures |t.kids| <= inactive ==> r == Fetch(net, t)
    ensures inactive < |t.kids| ==> r.Failed?
    ensures r.Ok? ==> r == Fetch(net, t)
    decreases t, 0
  {
    var own := Segment(net[t.id], false);
    var more: seq<Segment> := [];
    for k := 0 to |t.kids|
      invariant k <= inactive
      invariant FetchAll(net, t.kids) == Prepend(more, FetchAll(net, t.kids[k..]))
    {
      if inactive <= k { return Failed("upstream cancelled"); }
      FetchSuffix(net, t.kids, k);
      ghost var expected := if Fetch(net, t.kids[k]).Ok? then Fetch(net, t.kids[k]).segments else [];
      PrependTwice(more, expected, FetchAll(net, t.kids[k + 1..]));
      var reply := Call(net, t.kids[k], python);
      if reply.Failed? { return Failed("child fetch failed: " + Labelled(t.kids[k].id, reply.message)); }
      more := more + reply.segments;
    }
    PrependNothing(more);
    var segments := [own] + more;
    if segments != [] {
      segments := segments[|segments| - 1 := segments[|segments| - 1].(last := true)];
    }
    r := Ok(segments);
  }

  /** The leader keeps only the payload bytes of each child's reply. */
  method LeaderGather(net: Net, leader: Tree, python: set<Id>) returns (r: Outcome)
    ensures r == Gather(net, leader.kids)
  {
    var kids := leader.kids;
    var n := |kids|;
    var replies := new seq<Segment>[n](_ => []);
    var errors := new string[n](_ => "");
    RunWorkers(net, leader, python, {}, replies, errors);
    KeptAll(kids, {}, 0);
    assert kids[0..] == kids;
    var failure := FirstError(net, kids, {}, replies, errors);
    if failure != "" { return Error("child fetch failed: " + failure); }

    var payload := JoinReplies(net, kids, replies, errors);
    r := Payload(payload);
  }

  lemma JoinStep(net: Net, ts: seq<Tree>, k: nat, segs: seq<Segment>, reply: seq<Segment>)
    requires k < |ts| && Fetch(net, ts[k]) == Ok(reply)
    requires FetchAll(net, ts) == Prepend(segs, FetchAll(net, ts[k..]))
    ensures FetchAll(net, ts) == Prepend(segs + reply, FetchAll(net, ts[k + 1..]))
    ensures Joined(segs + reply) == Joined(segs) + Joined(reply)
  {
    FetchSuffix(net, ts, k);
    PrependTwice(segs, reply, FetchAll(net, ts[k + 1..]));
    JoinedAppend(segs, reply);
  }

  method JoinReplies(net: Net, ts: seq<Tree>, replies: array<seq<Segment>>, errors: array<string>)
      returns (payload: bytes)
    requires replies.Length == errors.Length == |ts|
    requires forall i :: 0 <= i < |ts| ==> SlotDone(net, ts[i], false, replies[i], errors[i]) && errors[i] == ""
    ensures FetchAll(net, ts).Ok? && payload == Joined(FetchAll(net, ts).segments)
  {
    payload := [];
    ghost var segs: seq<Segment> := [];
    assert ts[0..] == ts;
    for k := 0 to |ts|
      invariant FetchAll(net, ts) == Prepend(segs, FetchAll(net, ts[k..])) && payload == Joined(segs)
    {
      NoErrorMeansReply(net, ts[k], false, replies[k]);
      JoinStep(net, ts, k, segs, replies[k]);
      var part := JoinPayloads(replies[k]);
      payload := payload + part;
      segs := segs + replies[k];
    }
    PrependNothing(segs);
  }

  method JoinPayloads(segs: seq<Segment>) returns (part: bytes)
    ensures part == Joined(segs)
  {
    part := [];
    for k := 0 to |segs|
      invariant part + Joined(segs[k..]) == Joined(segs)
    {
      assert segs[k..][0] == segs[k] && segs[k..][1..] == segs[k + 1..];
      part := part + segs[k].payload;
    }
  }
}
